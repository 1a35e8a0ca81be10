/** Why the checksum of Bech32 detects three errors: the generator has three consecutive powers of an element of
    order 1023 as roots, up to a common factor. */
module Bech32Distance {
  import opened Bech32
  import opened Bech32Code
  import opened Options

  // ---------------------------------------------------------------- the field GF(1024)

  /** hi * e + lo over GF(32), where e^2 = 9e + 23. */
  datatype Ext = Ext(hi: Symbol, lo: Symbol)

  const NONE: Ext := Ext(0, 0)
  const UNIT: Ext := Ext(0, 1)
  const E: Ext := Ext(1, 0)

  function Add(x: Ext, y: Ext): Ext { Ext(Plus(x.hi, y.hi), Plus(x.lo, y.lo)) }

  function Scale(x: Ext, k: Symbol): Ext { Ext(Mul(x.hi, k), Mul(x.lo, k)) }

  function TimesE(x: Ext): Ext { Ext(Plus(Mul(x.hi, 9), x.lo), Mul(x.hi, 23)) }

  function Times(x: Ext, y: Ext): Ext { Add(Scale(x, y.lo), Scale(TimesE(x), y.hi)) }

  lemma {:induction false} AddLaws(x: Ext, y: Ext, z: Ext)
    ensures Add(x, y) == Add(y, x) && Add(Add(x, y), z) == Add(x, Add(y, z))
    ensures Add(x, NONE) == x == Add(NONE, x) && Add(x, x) == NONE
  {
    hide Plus;
    PlusBack(x.hi, y.hi); PlusBack(x.lo, y.lo);
    PlusMoves(x.hi, y.hi, z.hi); PlusMoves(x.lo, y.lo, z.lo);
    PlusZero(x.hi); PlusZero(x.lo);
  }

  lemma {:induction false} AddPairs(a: Ext, b: Ext, c: Ext, d: Ext)
    ensures Add(Add(a, b), Add(c, d)) == Add(Add(a, c), Add(b, d))
  {
    hide Plus;
    PlusPairs(a.hi, b.hi, c.hi, d.hi);
    PlusPairs(a.lo, b.lo, c.lo, d.lo);
  }

  lemma {:induction false} ScaleLaws(x: Ext, y: Ext, k: Symbol, m: Symbol)
    ensures Scale(Add(x, y), k) == Add(Scale(x, k), Scale(y, k))
    ensures Scale(x, Plus(k, m)) == Add(Scale(x, k), Scale(x, m))
    ensures Scale(Scale(x, k), m) == Scale(x, Mul(k, m)) == Scale(Scale(x, m), k)
    ensures Scale(x, 1) == x && Scale(x, 0) == NONE && Scale(NONE, k) == NONE
  {
    hide Plus, Mul;
    MulDistributes(x.hi, y.hi, k); MulDistributes(x.lo, y.lo, k);
    MulDistributes(k, m, x.hi); MulDistributes(k, m, x.lo);
    MulAssociates(x.hi, k, m); MulAssociates(x.lo, k, m);
    MulAssociates(x.hi, m, k); MulAssociates(x.lo, m, k);
    MulCommutes(k, m);
    MulOne(x.hi); MulOne(x.lo); MulOne(k);
  }

  lemma {:induction false} TimesELaws(x: Ext, y: Ext, k: Symbol)
    ensures TimesE(Add(x, y)) == Add(TimesE(x), TimesE(y))
    ensures TimesE(Scale(x, k)) == Scale(TimesE(x), k)
    ensures TimesE(TimesE(x)) == Add(Scale(TimesE(x), 9), Scale(x, 23))
  {
    hide Plus, Mul;
    MulDistributes(x.hi, y.hi, 9); MulDistributes(x.hi, y.hi, 23);
    PlusPairs(Mul(x.hi, 9), Mul(y.hi, 9), x.lo, y.lo);
    MulAssociates(x.hi, k, 9); MulAssociates(x.hi, 9, k); MulCommutes(k, 9);
    MulAssociates(x.hi, k, 23); MulAssociates(x.hi, 23, k); MulCommutes(k, 23);
    MulDistributes(Mul(x.hi, 9), x.lo, k);
    var t := Plus(Mul(x.hi, 9), x.lo);
    MulDistributes(Mul(x.hi, 9), x.lo, 23);
    MulAssociates(x.hi, 9, 23); MulAssociates(x.hi, 23, 9); MulCommutes(9, 23);
  }

  /** Multiplication is linear on both sides, and e may stand anywhere. */
  lemma {:induction false} TimesLinear(x: Ext, y: Ext, z: Ext, k: Symbol)
    ensures Times(Add(x, y), z) == Add(Times(x, z), Times(y, z))
    ensures Times(z, Add(x, y)) == Add(Times(z, x), Times(z, y))
    ensures Times(Scale(x, k), y) == Scale(Times(x, y), k) == Times(x, Scale(y, k))
  {
    hide Add, Scale, TimesE, Plus, Mul;
    TimesELaws(x, y, k);
    ScaleLaws(x, y, z.lo, k);
    ScaleLaws(TimesE(x), TimesE(y), z.hi, k);
    AddPairs(Scale(x, z.lo), Scale(y, z.lo), Scale(TimesE(x), z.hi), Scale(TimesE(y), z.hi));
    AddIs(x, y);
    ScaleLaws(z, z, x.lo, y.lo);
    ScaleLaws(TimesE(z), z, x.hi, y.hi);
    AddPairs(Scale(z, x.lo), Scale(z, y.lo), Scale(TimesE(z), x.hi), Scale(TimesE(z), y.hi));
    ScaleIs(y, k);
    ScaleLaws(x, x, k, y.lo);
    ScaleLaws(TimesE(x), x, k, y.hi);
    ScaleLaws(x, x, y.lo, k);
    ScaleLaws(TimesE(x), x, y.hi, k);
    ScaleLaws(Scale(x, y.lo), Scale(TimesE(x), y.hi), k, k);
  }

  lemma {:induction false} AddIs(x: Ext, y: Ext)
    ensures Add(x, y) == Ext(Plus(x.hi, y.hi), Plus(x.lo, y.lo))
  {
  }

  lemma {:induction false} ScaleIs(x: Ext, k: Symbol)
    ensures Scale(x, k) == Ext(Mul(x.hi, k), Mul(x.lo, k))
  {
  }

  lemma {:induction false} TimesMovesE(x: Ext, y: Ext)
    ensures Times(TimesE(x), y) == TimesE(Times(x, y)) == Times(x, TimesE(y))
  {
    hide Add, Scale, TimesE, Plus, Mul;
    TimesELaws(Scale(x, y.lo), Scale(TimesE(x), y.hi), 0);
    TimesELaws(x, x, y.lo);
    TimesELaws(TimesE(x), x, y.hi);
    TimesELaws(x, x, 0);
    TimesEIs(y);
    var ex := TimesE(x);
    // Both sides are l * ex + h * (9 ex + 23 x).
    ScaleLaws(Scale(ex, 9), Scale(x, 23), y.hi, y.hi);
    ScaleLaws(ex, ex, 9, y.hi); ScaleLaws(x, x, 23, y.hi); ScaleLaws(x, x, y.hi, 23); ScaleLaws(ex, ex, y.hi, 9);
    ScaleLaws(ex, ex, Mul(y.hi, 9), y.lo);
    AddLaws(Scale(x, Mul(y.hi, 23)), Scale(ex, Mul(y.hi, 9)), Scale(ex, y.lo));
    AddLaws(Scale(ex, Mul(y.hi, 9)), Scale(x, Mul(y.hi, 23)), Scale(ex, y.lo));
    AddLaws(Scale(ex, y.lo), Add(Scale(ex, Mul(y.hi, 9)), Scale(x, Mul(y.hi, 23))), NONE);
  }

  lemma {:induction false} TimesEIs(x: Ext)
    ensures TimesE(x) == Ext(Plus(Mul(x.hi, 9), x.lo), Mul(x.hi, 23))
  {
  }

  lemma {:induction false} TimesAssociates(x: Ext, y: Ext, z: Ext)
    ensures Times(Times(x, y), z) == Times(x, Times(y, z))
  {
    hide Add, Scale, TimesE, Plus, Mul, Times;
    TimesIs(Times(x, y), z);
    TimesIs(y, z);
    TimesLinear(Scale(y, z.lo), Scale(TimesE(y), z.hi), x, 0);
    TimesLinear(x, y, y, z.lo);
    TimesLinear(x, TimesE(y), y, z.hi);
    TimesMovesE(x, y);
  }

  lemma {:induction false} TimesIs(x: Ext, y: Ext)
    ensures Times(x, y) == Add(Scale(x, y.lo), Scale(TimesE(x), y.hi))
  {
  }

  lemma {:induction false} TimesCommutes(x: Ext, y: Ext)
    ensures Times(x, y) == Times(y, x)
  {
    hide Plus, Mul;
    MulCommutes(x.lo, y.lo); MulCommutes(x.hi, y.lo); MulCommutes(x.lo, y.hi);
    MulAssociates(x.hi, 23, y.hi); MulAssociates(y.hi, 23, x.hi); MulCommutes(x.hi, y.hi);
    ProductMoves(x.hi, y.hi, 23); ProductMoves(x.hi, y.hi, 9);
    MulDistributes(Mul(x.hi, 9), x.lo, y.hi); MulDistributes(Mul(y.hi, 9), y.lo, x.hi);
    var p := Mul(Mul(x.hi, 9), y.hi);
    ThreeTerms(Mul(x.hi, y.lo), p, Mul(x.lo, y.hi));
  }

  lemma {:induction false} ProductMoves(a: Symbol, b: Symbol, k: Symbol)
    ensures Mul(Mul(a, k), b) == Mul(Mul(b, k), a)
  {
    hide Mul;
    MulAssociates(a, k, b); MulCommutes(k, b); MulCommutes(a, Mul(b, k));
  }

  lemma {:induction false} ThreeTerms(a: Symbol, b: Symbol, c: Symbol)
    ensures Plus(a, Plus(b, c)) == Plus(c, Plus(b, a))
  {
  }

  lemma {:induction false} TimesOne(x: Ext)
    ensures Times(x, UNIT) == x == Times(UNIT, x) && Times(E, x) == TimesE(x)
    ensures Times(x, NONE) == NONE == Times(NONE, x)
  {
    hide Add, Scale, TimesE, Plus, Mul;
    TimesCommutes(x, UNIT); TimesCommutes(x, NONE); TimesCommutes(E, x);
    ScaleLaws(x, x, 0, 0); ScaleLaws(TimesE(x), x, 0, 0);
    AddLaws(x, x, x); AddLaws(NONE, NONE, NONE); AddLaws(TimesE(x), x, x);
  }

  /** The conjugate: e goes to e + 9, the other root. */
  function Conjugate(x: Ext): Ext { Ext(x.hi, Plus(x.lo, Mul(x.hi, 9))) }

  lemma {:induction false} NormNonZero(x: Ext)
    ensures Times(Conjugate(x), x).hi == 0 && (Times(Conjugate(x), x).lo == 0 <==> x == NONE)
  {
    hide Plus, Mul;
    var h, l := x.hi, x.lo;
    var m := Plus(l, Mul(h, 9));
    // The coefficient of e is h * l + (9h + l + 9h) * h.
    MulDistributes(Mul(h, 9), m, h);
    PlusBack(l, Mul(h, 9));
    MulCommutes(h, l);
    PlusZero(Mul(h, l));
    Norm(h, l);
  }

  lemma {:induction false} Norm(h: Symbol, l: Symbol)
    ensures Plus(Mul(Plus(l, Mul(h, 9)), l), Mul(Mul(h, 23), h)) == 0 <==> h == 0 && l == 0
  {
  }

  lemma {:induction false} NoDivisors(x: Ext, y: Ext)
    requires Times(x, y) == NONE
    ensures x == NONE || y == NONE
  {
    hide Times, Add, TimesE, Plus, Mul, Conjugate;
    var c := Conjugate(x);
    var n := Times(c, x);
    NormNonZero(x);
    TimesAssociates(c, x, y);
    TimesOne(c);
    TimesCommutes(n, y);
    TimesIs(y, n);
    ScaleLaws(TimesE(y), y, 0, 0);
    AddLaws(Scale(y, n.lo), y, y);
    MulNonZero(y.hi, n.lo);
    MulNonZero(y.lo, n.lo);
  }

  lemma {:induction false} CancelRight(x: Ext, y: Ext, z: Ext)
    requires Times(x, z) == Times(y, z) && z != NONE
    ensures x == y
  {
    hide Times, Add;
    TimesLinear(x, y, z, 0);
    AddLaws(Times(x, z), y, y);
    NoDivisors(Add(x, y), z);
    SumZero(x, y);
  }

  lemma {:induction false} SumZero(x: Ext, y: Ext)
    ensures Add(x, y) == NONE <==> x == y
  {
    hide Add;
    AddLaws(x, y, y);
    AddLaws(y, y, y);
    AddLaws(x, x, x);
  }

  // ---------------------------------------------------------------- powers

  function Power(y: Ext, n: nat): Ext { if n == 0 then UNIT else Times(Power(y, n - 1), y) }

  lemma {:induction false} PowerAdd(y: Ext, m: nat, n: nat)
    ensures Power(y, m + n) == Times(Power(y, m), Power(y, n))
  {
    hide Times;
    if n == 0 {
      TimesOne(Power(y, m));
    } else {
      PowerAdd(y, m, n - 1);
      TimesAssociates(Power(y, m), Power(y, n - 1), y);
    }
  }

  lemma {:induction false} PowerTimes(x: Ext, y: Ext, n: nat)
    ensures Power(Times(x, y), n) == Times(Power(x, n), Power(y, n))
  {
    hide Times;
    if n == 0 {
      TimesOne(UNIT);
    } else {
      PowerTimes(x, y, n - 1);
      FourFactors(Power(x, n - 1), Power(y, n - 1), x, y);
    }
  }

  lemma {:induction false} FourFactors(a: Ext, b: Ext, c: Ext, d: Ext)
    ensures Times(Times(a, b), Times(c, d)) == Times(Times(a, c), Times(b, d))
  {
    hide Times;
    TimesAssociates(a, b, Times(c, d));
    TimesAssociates(b, c, d); TimesCommutes(b, c); TimesAssociates(c, b, d);
    TimesAssociates(a, c, Times(b, d));
  }

  lemma {:induction false} PowerNonZero(y: Ext, n: nat)
    requires y != NONE
    ensures Power(y, n) != NONE
  {
    hide Times;
    if n > 0 {
      PowerNonZero(y, n - 1);
      if Power(y, n) == NONE { NoDivisors(Power(y, n - 1), y); }
    }
  }

  lemma {:induction false} PowerMany(y: Ext, d: nat, k: nat)
    requires Power(y, d) == UNIT
    ensures Power(y, d * k) == UNIT
  {
    hide Times, Power;
    if k == 0 {
      PowerZero(y);
      assert d * k == 0;
    } else {
      PowerMany(y, d, k - 1);
      assert d * k == d * (k - 1) + d;
      PowerAdd(y, d * (k - 1), d);
      TimesOne(UNIT);
    }
  }

  lemma {:induction false} PowerZero(y: Ext)
    ensures Power(y, 0) == UNIT && Power(y, 1) == y
  {
    hide Times;
    TimesOne(y);
  }

  // ---------------------------------------------------------------- the order of e

  lemma {:induction false} Squared(m: nat, x: Ext, xx: Ext)
    requires Power(E, m) == x && Times(x, x) == xx
    ensures Power(E, 2 * m) == xx
  {
    hide Times, Power;
    PowerAdd(E, m, m);
  }

  lemma {:induction false} LowSquares()
    ensures Times(E, E) == Ext(9, 23) && Times(Ext(9, 23), Ext(9, 23)) == Ext(6, 14)
    ensures Times(Ext(6, 14), Ext(6, 14)) == Ext(16, 25) && Times(Ext(16, 25), Ext(16, 25)) == Ext(21, 3)
    ensures Times(Ext(21, 3), Ext(21, 3)) == Ext(1, 9)
  {
  }

  lemma {:induction false} HighSquares()
    ensures Times(Ext(1, 9), Ext(1, 9)) == Ext(9, 4) && Times(Ext(9, 4), Ext(9, 4)) == Ext(6, 17)
    ensures Times(Ext(6, 17), Ext(6, 17)) == Ext(16, 4) && Times(Ext(16, 4), Ext(16, 4)) == Ext(21, 26)
    ensures Times(Ext(21, 26), Ext(21, 26)) == E
  {
  }

  lemma {:induction false} SquarePowers()
    ensures Power(E, 4) == Ext(6, 14) && Power(E, 8) == Ext(16, 25) && Power(E, 16) == Ext(21, 3)
    ensures Power(E, 32) == Ext(1, 9) && Power(E, 64) == Ext(9, 4) && Power(E, 256) == Ext(16, 4)
    ensures Power(E, 1024) == E
  {
    hide Times, Power;
    PowerZero(E);
    LowSquares();
    HighSquares();
    Squared(1, E, Ext(9, 23)); Squared(2, Ext(9, 23), Ext(6, 14)); Squared(4, Ext(6, 14), Ext(16, 25));
    Squared(8, Ext(16, 25), Ext(21, 3)); Squared(16, Ext(21, 3), Ext(1, 9)); Squared(32, Ext(1, 9), Ext(9, 4));
    Squared(64, Ext(9, 4), Ext(6, 17)); Squared(128, Ext(6, 17), Ext(16, 4)); Squared(256, Ext(16, 4), Ext(21, 26));
    Squared(512, Ext(21, 26), E);
  }

  lemma {:induction false} Products()
    ensures Times(Ext(1, 9), E) == Ext(0, 23)
    ensures Times(Times(Times(Times(Ext(9, 4), Ext(21, 3)), Ext(16, 25)), Ext(6, 14)), E) == Ext(26, 22)
    ensures Times(Times(Times(Times(Ext(16, 4), Ext(9, 4)), Ext(21, 3)), Ext(6, 14)), E) == Ext(11, 13)
  {
  }

  // e^1023 = 1, and no exponent 1023 / p for a prime p gives 1.
  lemma {:induction false} Power1023()
    ensures Power(E, 1023) == UNIT
  {
    hide Times, Power;
    SquarePowers();
    PowerBack(1024);
  }

  lemma {:induction false} PowerBack(n: nat)
    requires n > 0 && Power(E, n) == E
    ensures Power(E, n - 1) == UNIT
  {
    hide Times;
    TimesOne(E);
    CancelRight(Power(E, n - 1), UNIT, E);
  }

  lemma {:induction false} Power33()
    ensures Power(E, 33) == Ext(0, 23)
  {
    hide Times, Power;
    SquarePowers();
    Products();
    PowerZero(E);
    PowerAdd(E, 32, 1);
  }

  lemma {:induction false} Power93()
    ensures Power(E, 93) == Ext(26, 22)
  {
    hide Times, Power;
    SquarePowers();
    Products();
    PowerZero(E);
    PowerAdd(E, 64, 16); PowerAdd(E, 80, 8); PowerAdd(E, 88, 4); PowerAdd(E, 92, 1);
  }

  lemma {:induction false} Power341()
    ensures Power(E, 341) == Ext(11, 13)
  {
    hide Times, Power;
    SquarePowers();
    Products();
    PowerZero(E);
    PowerAdd(E, 256, 64); PowerAdd(E, 320, 16); PowerAdd(E, 336, 4); PowerAdd(E, 340, 1);
  }

  /** The smallest positive exponent that gives 1, among those up to `n`. */
  lemma {:induction false} Smallest(n: nat) returns (d: nat)
    requires n > 0 && Power(E, n) == UNIT
    ensures 0 < d <= n && Power(E, d) == UNIT && forall m :: 0 < m < d ==> Power(E, m) != UNIT
  {
    hide Power;
    d := n;
    var i := 1;
    while i < d
      invariant 0 < i <= d <= n && Power(E, d) == UNIT && forall m :: 0 < m < i ==> Power(E, m) != UNIT
      decreases d - i
    {
      if Power(E, i) == UNIT { d := i; } else { i := i + 1; }
    }
  }

  lemma {:induction false} SmallestDivides(d: nat, n: nat)
    requires d > 0 && Power(E, d) == UNIT && (forall m :: 0 < m < d ==> Power(E, m) != UNIT) && Power(E, n) == UNIT
    ensures n % d == 0
  {
    hide Power, Times;
    var q, r := n / d, n % d;
    assert n == d * q + r;
    PowerMany(E, d, q);
    PowerAdd(E, d * q, r);
    TimesOne(Power(E, r));
  }

  /** e has order 1023. */
  lemma {:induction false} OrderOfE(n: nat)
    requires 0 < n < 1023
    ensures Power(E, n) != UNIT
  {
    hide Power;
    if Power(E, n) == UNIT {
      var d := Smallest(n);
      Power1023();
      SmallestDivides(d, 1023);
      var p := ProperDivisor(d);
      assert p == d * (p / d);
      PowerMany(E, d, p / d);
      PrimePowers(p);
    }
  }

  lemma {:induction false} PrimePowers(p: nat)
    requires p == 33 || p == 93 || p == 341
    ensures Power(E, p) != UNIT
  {
    hide Power;
    if p == 33 { Power33(); } else if p == 93 { Power93(); } else { Power341(); }
  }

  /** A proper divisor of 1023 = 3 * 11 * 31 divides 33, 93 or 341. */
  lemma {:induction false} ProperDivisor(d: nat) returns (p: nat)
    requires 0 < d < 1023 && 1023 % d == 0
    ensures (p == 33 || p == 93 || p == 341) && p % d == 0
  {
    assert d <= 341;
    ListOfDivisors(d);
    p := if d == 1 || d == 3 || d == 11 || d == 33 then 33 else if d == 31 || d == 93 then 93 else 341;
  }

  lemma {:induction false} ListOfDivisors(d: nat)
    requires 0 < d <= 341 && 1023 % d == 0
    ensures d == 1 || d == 3 || d == 11 || d == 31 || d == 33 || d == 93 || d == 341
  {
  }

  // ---------------------------------------------------------------- evaluation

  function Const(x: Symbol): Ext { Ext(0, x) }

  /** The value at `y` of the polynomial with these coefficients, highest first. */
  function Eval(v: seq<Symbol>, y: Ext): Ext {
    if v == [] then NONE else Add(Times(Eval(v[..|v| - 1], y), y), Const(v[|v| - 1]))
  }

  lemma {:induction false} EvalNext(v: seq<Symbol>, x: Symbol, y: Ext)
    ensures Eval(v + [x], y) == Add(Times(Eval(v, y), y), Const(x))
  {
    hide Add, Times, Const;
    assert (v + [x])[..|v|] == v;
  }

  lemma {:induction false} ConstLaws(a: Symbol, b: Symbol)
    ensures Add(Const(a), Const(b)) == Const(Plus(a, b)) && Scale(Const(a), b) == Const(Mul(a, b))
    ensures Const(0) == NONE && Const(1) == UNIT && Scale(UNIT, a) == Const(a)
  {
    hide Plus, Mul;
    PlusZero(0);
    MulOne(b); MulOne(a);
  }

  lemma {:induction false} EvalSum(u: seq<Symbol>, v: seq<Symbol>, y: Ext)
    requires |u| == |v|
    ensures Eval(XorSeq(u, v), y) == Add(Eval(u, y), Eval(v, y))
  {
    hide Add, Times, Const, Plus;
    if u == [] {
      AddLaws(NONE, NONE, NONE);
    } else {
      var n := |u| - 1;
      EvalSum(u[..n], v[..n], y);
      var w := XorSeq(u, v);
      assert w[..n] == XorSeq(u[..n], v[..n]);
      TimesLinear(Eval(u[..n], y), Eval(v[..n], y), y, 0);
      AddPairs(Times(Eval(u[..n], y), y), Times(Eval(v[..n], y), y), Const(u[n]), Const(v[n]));
      ConstLaws(u[n], v[n]);
      PlusIs(u[n], v[n]);
    }
  }

  lemma {:induction false} PlusIs(a: Symbol, b: Symbol)
    ensures Plus(a, b) == a ^ b
  {
  }

  function ScaledSeq(v: seq<Symbol>, k: Symbol): (s: seq<Symbol>)
    ensures |s| == |v| && forall i :: 0 <= i < |s| ==> s[i] == Mul(v[i], k)
  {
    seq(|v|, i requires 0 <= i < |v| => Mul(v[i], k))
  }

  lemma {:induction false} EvalScaled(v: seq<Symbol>, k: Symbol, y: Ext)
    ensures Eval(ScaledSeq(v, k), y) == Scale(Eval(v, y), k)
  {
    hide Add, Times, Const, Plus, Mul, Scale;
    if v == [] {
      ScaleLaws(NONE, NONE, k, k);
    } else {
      var n := |v| - 1;
      EvalScaled(v[..n], k, y);
      assert ScaledSeq(v, k)[..n] == ScaledSeq(v[..n], k);
      TimesLinear(Eval(v[..n], y), y, y, k);
      ScaleLaws(Times(Eval(v[..n], y), y), Const(v[n]), k, k);
      ConstLaws(v[n], k);
    }
  }

  lemma {:induction false} EvalZeros(n: nat, y: Ext)
    ensures Eval(Zeros(n), y) == NONE
  {
    hide Add, Times, Const;
    if n > 0 {
      EvalZeros(n - 1, y);
      assert Zeros(n)[..n - 1] == Zeros(n - 1);
      TimesOne(y);
      ConstLaws(0, 0);
      AddLaws(NONE, NONE, NONE);
    }
  }

  lemma {:induction false} EvalLeadingZero(v: seq<Symbol>, y: Ext)
    ensures Eval([0] + v, y) == Eval(v, y)
  {
    hide Add, Times, Const;
    if v == [] {
      assert [0] + v == Zeros(1);
      EvalZeros(1, y);
    } else {
      var n := |v| - 1;
      EvalLeadingZero(v[..n], y);
      assert ([0] + v)[..n + 1] == [0] + v[..n];
    }
  }

  function Coefficients(c: Poly): seq<Symbol> { [c.c0, c.c1, c.c2, c.c3, c.c4, c.c5] }

  /** At a root of g(x), a step multiplies and adds. */
  lemma {:induction false} EvalStep(c: Poly, v: Symbol, y: Ext)
    requires Eval(GENERATOR, y) == NONE
    ensures Eval(Coefficients(Step(c, v)), y) == Add(Times(Eval(Coefficients(c), y), y), Const(v))
  {
    hide Add, Times, Const, Plus, Mul, Step, Eval, Scale, ScaledSeq, XorSeq, Coefficients;
    var lead, rest := ScaledSeq(GENERATOR, c.c0), [0] + Coefficients(Step(c, v));
    EvalNext(Coefficients(c), v, y);
    StepSplit(c, v);
    EvalSum(lead, rest, y);
    EvalScaled(GENERATOR, c.c0, y);
    ScaleLaws(NONE, NONE, c.c0, c.c0);
    EvalLeadingZero(Coefficients(Step(c, v)), y);
    AddLaws(Eval(Coefficients(Step(c, v)), y), NONE, NONE);
  }

  lemma {:induction false} RestAt(c: Poly, i: int)
    requires 0 <= i < 6
    ensures Rest(c, i) == Coefficients(c)[i]
  {
  }

  lemma {:induction false} StepSplit(c: Poly, v: Symbol)
    ensures |GENERATOR| == 7 && |Coefficients(Step(c, v))| == 6
    ensures Coefficients(c) + [v] == XorSeq(ScaledSeq(GENERATOR, c.c0), [0] + Coefficients(Step(c, v)))
  {
    hide Plus, Mul, Step, Rest;
    var all, lead, rest := Coefficients(c) + [v], ScaledSeq(GENERATOR, c.c0), [0] + Coefficients(Step(c, v));
    forall i | 0 <= i < 7 ensures all[i] == XorSeq(lead, rest)[i] { StepSplitAt(c, v, i); }
  }

  lemma {:induction false} StepSplitAt(c: Poly, v: Symbol, i: nat)
    requires i < 7
    ensures (Coefficients(c) + [v])[i] == Mul(GENERATOR[i], c.c0) ^ ([0] + Coefficients(Step(c, v)))[i]
  {
    StepRemainder(c, v, i);
    hide Plus, Mul, Step, Rest, Coefficients;
    MulCommutes(c.c0, GENERATOR[i]);
    SplitParts(c, v, Step(c, v), i);
    PlusIs(Mul(c.c0, GENERATOR[i]), Rest(Step(c, v), i - 1));
  }

  lemma {:induction false} SplitParts(c: Poly, v: Symbol, r: Poly, i: nat)
    requires i < 7
    ensures |Coefficients(c)| == 6 && |Coefficients(r)| == 6
    ensures (Coefficients(c) + [v])[i] == (if i < 6 then Rest(c, i) else v)
    ensures ([0] + Coefficients(r))[i] == Rest(r, i - 1)
  {
    if i < 6 { RestAt(c, i); }
    if i > 0 { RestAt(r, i - 1); }
  }

  lemma {:induction false} FoldTail(c: Poly, v: seq<Symbol>)
    requires v != []
    ensures Fold(c, v) == Step(Fold(c, v[..|v| - 1]), v[|v| - 1])
  {
    hide Step;
    var w, x := v[..|v| - 1], v[|v| - 1];
    assert v == w + [x];
    FoldConcat(c, w, [x]);
    var none: seq<Symbol> := [];
    assert [x][1..] == none;
  }

  /** At a root of g(x), a message and its remainder have the same value. */
  lemma {:induction false} EvalFold(v: seq<Symbol>, y: Ext)
    requires Eval(GENERATOR, y) == NONE
    ensures Eval(Coefficients(Fold(ZERO, v)), y) == Eval(v, y)
  {
    hide Add, Times, Const, Step;
    if v == [] {
      assert Coefficients(ZERO) == Zeros(6);
      EvalZeros(6, y);
    } else {
      var n := |v| - 1;
      EvalFold(v[..n], y);
      FoldTail(ZERO, v);
      EvalStep(Fold(ZERO, v[..n]), v[n], y);
    }
  }

  // ---------------------------------------------------------------- the roots

  const ROOT: Ext := Ext(13, 29)

  lemma {:induction false} RootsFollow()
    ensures Times(ROOT, E) == Ext(3, 5) && Times(Times(ROOT, E), E) == Ext(30, 16)
  {
  }

  /** The value of g(x), step by step. */
  lemma {:induction false} GeneratorAt(y: Ext, p1: Ext, p2: Ext, p3: Ext, p4: Ext, p5: Ext)
    requires Add(Times(UNIT, y), Const(29)) == p1 && Add(Times(p1, y), Const(22)) == p2
    requires Add(Times(p2, y), Const(20)) == p3 && Add(Times(p3, y), Const(21)) == p4
    requires Add(Times(p4, y), Const(29)) == p5 && Add(Times(p5, y), Const(18)) == NONE
    ensures Eval(GENERATOR, y) == NONE
  {
    hide Eval, Add, Times, Const;
    var g1: seq<Symbol>, g2: seq<Symbol>, g3: seq<Symbol> := [1], [1, 29], [1, 29, 22];
    var g4: seq<Symbol>, g5: seq<Symbol> := [1, 29, 22, 20], [1, 29, 22, 20, 21];
    var g6: seq<Symbol> := [1, 29, 22, 20, 21, 29];
    EvalOne(y);
    EvalNext(g1, 29, y); EvalNext(g2, 22, y); EvalNext(g3, 20, y); EvalNext(g4, 21, y); EvalNext(g5, 29, y);
    EvalNext(g6, 18, y);
    assert g1 + [29] == g2 && g2 + [22] == g3 && g3 + [20] == g4 && g4 + [21] == g5 && g5 + [29] == g6;
    assert g6 + [18] == GENERATOR;
  }

  lemma {:induction false} EvalOne(y: Ext)
    ensures Eval([1], y) == UNIT
  {
    hide Add, Times, Const;
    var none: seq<Symbol> := [];
    assert [1][..0] == none;
    TimesOne(y);
    ConstLaws(1, 1);
    AddLaws(UNIT, UNIT, UNIT);
  }

  lemma {:induction false} FirstRoot()
    ensures Eval(GENERATOR, Ext(13, 29)) == NONE
  {
    GeneratorAt(Ext(13, 29), Ext(13, 0), Ext(23, 6), Ext(23, 17), Ext(18, 4), Ext(2, 26));
  }

  lemma {:induction false} SecondRoot()
    ensures Eval(GENERATOR, Ext(3, 5)) == NONE
  {
    GeneratorAt(Ext(3, 5), Ext(3, 24), Ext(10, 12), Ext(7, 5), Ext(7, 15), Ext(25, 12));
  }

  lemma {:induction false} ThirdRoot()
    ensures Eval(GENERATOR, Ext(30, 16)) == NONE
  {
    GeneratorAt(Ext(30, 16), Ext(30, 13), Ext(29, 26), Ext(1, 5), Ext(21, 19), Ext(11, 24));
  }

  // ---------------------------------------------------------------- few errors

  /** Zero but for `v` at position `a`. */
  function OneAt(n: nat, a: nat, v: Symbol): (s: seq<Symbol>)
    ensures |s| == n && forall i :: 0 <= i < n ==> s[i] == if i == a then v else 0
  {
    seq(n, i => if i == a then v else 0)
  }

  lemma {:induction false} EvalOneAt(n: nat, a: nat, v: Symbol, y: Ext)
    requires a < n
    ensures Eval(OneAt(n, a, v), y) == Scale(Power(y, n - 1 - a), v)
  {
    hide Add, Times, Const, Scale;
    var s := OneAt(n, a, v);
    if a == n - 1 {
      assert s[..n - 1] == Zeros(n - 1);
      EvalZeros(n - 1, y);
      TimesOne(y);
      ConstLaws(v, v);
      AddLaws(Const(v), NONE, NONE);
    } else {
      assert s[..n - 1] == OneAt(n - 1, a, v);
      EvalOneAt(n - 1, a, v, y);
      TimesLinear(Power(y, n - 2 - a), y, y, v);
      ConstLaws(0, 0);
      AddLaws(Scale(Power(y, n - 1 - a), v), NONE, NONE);
    }
  }

  /** Only the positions `a`, `b` and `c` may be non-zero. */
  ghost predicate AtMostThree(e: seq<Symbol>, a: nat, b: nat, c: nat) {
    && a < |e| && b < |e| && c < |e| && a != b && a != c && b != c
    && forall i :: 0 <= i < |e| && e[i] != 0 ==> i == a || i == b || i == c
  }

  function Term(e: seq<Symbol>, a: nat, y: Ext): Ext
    requires a < |e|
  {
    Scale(Power(y, |e| - 1 - a), e[a])
  }

  lemma {:induction false} EvalThree(e: seq<Symbol>, a: nat, b: nat, c: nat, y: Ext)
    requires AtMostThree(e, a, b, c)
    ensures Eval(e, y) == Add(Add(Term(e, a, y), Term(e, b, y)), Term(e, c, y))
  {
    hide Eval, Add, Scale, Power, XorSeq, OneAt;
    var n := |e|;
    var u, v, w := OneAt(n, a, e[a]), OneAt(n, b, e[b]), OneAt(n, c, e[c]);
    SumOfThree(e, a, b, c);
    EvalSum(XorSeq(u, v), w, y);
    EvalSum(u, v, y);
    EvalOneAt(n, a, e[a], y); EvalOneAt(n, b, e[b], y); EvalOneAt(n, c, e[c], y);
  }

  lemma {:induction false} SumOfThree(e: seq<Symbol>, a: nat, b: nat, c: nat)
    requires AtMostThree(e, a, b, c)
    ensures var n := |e|;
            e == XorSeq(XorSeq(OneAt(n, a, e[a]), OneAt(n, b, e[b])), OneAt(n, c, e[c]))
  {
    hide XorSeq, OneAt, Only;
    var n := |e|;
    var u, v, w := OneAt(n, a, e[a]), OneAt(n, b, e[b]), OneAt(n, c, e[c]);
    var uv := XorSeq(u, v);
    var all := XorSeq(uv, w);
    forall i | 0 <= i < n ensures e[i] == all[i] {
      OnlyAt(e, a, i); OnlyAt(e, b, i); OnlyAt(e, c, i);
      assert all[i] == uv[i] ^ w[i] && uv[i] == u[i] ^ v[i];
      OnlyOne(e[i], i == a, i == b, i == c);
    }
  }

  lemma {:induction false} OnlyAt(e: seq<Symbol>, a: nat, i: nat)
    requires a < |e| && i < |e|
    ensures OneAt(|e|, a, e[a])[i] == Only(i == a, e[i])
  {
  }

  function Only(here: bool, x: Symbol): Symbol { if here then x else 0 }

  lemma {:induction false} OnlyOne(x: Symbol, a: bool, b: bool, c: bool)
    requires !(a && b) && !(a && c) && !(b && c) && (x != 0 ==> a || b || c)
    ensures x == (Only(a, x) ^ Only(b, x)) ^ Only(c, x)
  {
  }

  /** Adding a multiple of one equation to the next removes the last term. */
  lemma {:induction false} Eliminate(u: Ext, v: Ext, w: Ext, x: Ext, y: Ext, z: Ext)
    requires Add(Add(u, v), w) == NONE && Add(Add(Times(u, x), Times(v, y)), Times(w, z)) == NONE
    ensures Add(Times(u, Add(x, z)), Times(v, Add(y, z))) == NONE
  {
    hide Add, Times;
    SumZero(Add(u, v), w);
    SumZero(Add(Times(u, x), Times(v, y)), Times(w, z));
    TimesLinear(u, v, z, 0);
    TimesLinear(x, z, u, 0);
    TimesLinear(y, z, v, 0);
    AddPairs(Times(u, x), Times(u, z), Times(v, y), Times(v, z));
    AddLaws(Times(w, z), w, w);
  }

  lemma {:induction false} Reorder(a: Ext, b: Ext, c: Ext)
    ensures Times(Times(a, b), c) == Times(Times(a, c), b)
  {
    hide Times;
    TimesAssociates(a, b, c); TimesCommutes(b, c); TimesAssociates(a, c, b);
  }

  /** The determinant of three powers: three such equations leave no first term. */
  lemma {:induction false} Vandermonde(u: Ext, v: Ext, w: Ext, x: Ext, y: Ext, z: Ext)
    requires Add(Add(u, v), w) == NONE && Add(Add(Times(u, x), Times(v, y)), Times(w, z)) == NONE
    requires Add(Add(Times(Times(u, x), x), Times(Times(v, y), y)), Times(Times(w, z), z)) == NONE
    ensures u == NONE || x == y || x == z
  {
    hide Add, Times;
    Eliminate(u, v, w, x, y, z);
    Eliminate(Times(u, x), Times(v, y), Times(w, z), x, y, z);
    Reorder(u, x, Add(x, z));
    Reorder(v, y, Add(y, z));
    var p, q := Times(u, Add(x, z)), Times(v, Add(y, z));
    TwoTerms(p, q, x, y);
    if x != y {
      SumZero(x, y);
      NoDivisors(p, Add(x, y));
      NoDivisors(u, Add(x, z));
      SumZero(x, z);
    }
  }

  lemma {:induction false} TwoTerms(p: Ext, q: Ext, x: Ext, y: Ext)
    requires Add(p, q) == NONE && Add(Times(p, x), Times(q, y)) == NONE
    ensures Times(p, Add(x, y)) == NONE
  {
    hide Add, Times;
    SumZero(p, q);
    TimesLinear(x, y, p, 0);
  }

  lemma {:induction false} PowersDiffer(m: nat, n: nat)
    requires m < n < m + 1023
    ensures Power(E, m) != Power(E, n)
  {
    hide Times, Power;
    OrderOfE(n - m);
    if Power(E, m) == Power(E, n) {
      PowerAdd(E, n - m, m);
      PowerNonZero(E, m);
      TimesOne(Power(E, m));
      CancelRight(Power(E, n - m), UNIT, Power(E, m));
    }
  }

  /** A term at the next root gains the power of e of its position. */
  lemma {:induction false} TermNext(e: seq<Symbol>, a: nat, y: Ext)
    requires a < |e|
    ensures Term(e, a, Times(y, E)) == Times(Term(e, a, y), Power(E, |e| - 1 - a))
  {
    hide Times, Power, Scale;
    var n := |e| - 1 - a;
    PowerTimes(y, E, n);
    TimesLinear(Power(y, n), Power(E, n), y, e[a]);
  }

  lemma {:induction false} TermNonZero(e: seq<Symbol>, a: nat, y: Ext)
    requires a < |e| && e[a] != 0 && y != NONE
    ensures Term(e, a, y) != NONE
  {
    hide Times, Power, Mul;
    var p := Power(y, |e| - 1 - a);
    PowerNonZero(y, |e| - 1 - a);
    MulNonZero(p.hi, e[a]);
    MulNonZero(p.lo, e[a]);
  }

  /** An error in one to three of at most 1023 positions changes the remainder. */
  lemma {:induction false} ThreeDetected(e: seq<Symbol>, a: nat, b: nat, c: nat)
    requires AtMostThree(e, a, b, c) && e[a] != 0 && |e| <= 1023
    ensures Fold(ZERO, e) != ZERO
  {
    hide Eval, Add, Times, Power, Scale, Fold, Term;
    if Fold(ZERO, e) == ZERO {
      var y0 := ROOT;
      var y1 := Times(y0, E);
      var y2 := Times(y1, E);
      RootsFollow();
      FirstRoot(); SecondRoot(); ThirdRoot();
      ZeroAt(e, y0); ZeroAt(e, y1); ZeroAt(e, y2);
      EvalThree(e, a, b, c, y0); EvalThree(e, a, b, c, y1); EvalThree(e, a, b, c, y2);
      TermNext(e, a, y0); TermNext(e, b, y0); TermNext(e, c, y0);
      TermNext(e, a, y1); TermNext(e, b, y1); TermNext(e, c, y1);
      var n := |e| - 1;
      Vandermonde(Term(e, a, y0), Term(e, b, y0), Term(e, c, y0), Power(E, n - a), Power(E, n - b), Power(E, n - c));
      TermNonZero(e, a, y0);
      if a < b { PowersDiffer(n - b, n - a); } else { PowersDiffer(n - a, n - b); }
      if a < c { PowersDiffer(n - c, n - a); } else { PowersDiffer(n - a, n - c); }
    }
  }

  lemma {:induction false} ZeroAt(e: seq<Symbol>, y: Ext)
    requires Fold(ZERO, e) == ZERO && Eval(GENERATOR, y) == NONE
    ensures Eval(e, y) == NONE
  {
    hide Eval, Fold;
    EvalFold(e, y);
    assert Coefficients(ZERO) == Zeros(6);
    EvalZeros(6, y);
  }

  /** Altering one to three symbols of at most 1023 never verifies as before, wherever they are. */
  lemma {:induction false} ThreeAlteredRejected(hrp: string, values: seq<Symbol>, altered: seq<Symbol>, a: nat, b: nat,
                                                c: nat, e: Encoding)
    requires VerifyChecksum(hrp, values) == Some(e) && |altered| == |values| <= 1023 && altered != values
    requires a < |values| && b < |values| && c < |values| && a != b && a != c && b != c
    requires forall i :: 0 <= i < |values| && altered[i] != values[i] ==> i == a || i == b || i == c
    ensures VerifyChecksum(hrp, altered) != Some(e)
  {
    hide Step, Fold, Poly.Xor, ExpandHrp, EncodingConstant, VerifyChecksum;
    var h := ExpandHrp(hrp);
    var d := XorSeq(values, altered);
    forall i | 0 <= i < |d| ensures d[i] == 0 <==> values[i] == altered[i] { SymbolCancel(values[i], altered[i]); }
    var j :| 0 <= j < |values| && altered[j] != values[j];
    if j == a { ThreeDetected(d, a, b, c); }
    if j == b { ThreeDetected(d, b, a, c); }
    if j == c { ThreeDetected(d, c, a, b); }
    SameHead(h, values, altered);
    FoldConcat(ZERO, Zeros(|h|), d);
    FoldZeros(ZERO, |h|);
    FoldLinear(ONE, ONE, h + values, h + altered);
    XorZero(ONE);
    XorZero(Fold(ONE, h + values));
    VerifyMeans(hrp, values, e);
    VerifyMeans(hrp, altered, e);
  }

  lemma {:induction false} SameHead(h: seq<Symbol>, v: seq<Symbol>, w: seq<Symbol>)
    requires |v| == |w|
    ensures XorSeq(h + v, h + w) == Zeros(|h|) + XorSeq(v, w)
  {
    var d := XorSeq(h + v, h + w);
    forall i | 0 <= i < |d| ensures d[i] == (Zeros(|h|) + XorSeq(v, w))[i] {
      if i < |h| { SymbolZero(h[i]); }
    }
  }
}
