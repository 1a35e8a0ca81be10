/** Fixed-width unsigned integers in 32-bit limbs, updated in place, against the integers. */
module ArithUint {
  import opened Powers

  // ---------------------------------------------------------------- bits of a limb

  /** Bitwise or. */
  function Or(x: nat, y: nat): nat
    decreases x + y
  {
    if x == 0 then y else if y == 0 then x
    else 2 * Or(x / 2, y / 2) + (if x % 2 == 1 || y % 2 == 1 then 1 else 0)
  }

  /** Disjoint bits: or is addition. */
  lemma {:induction false} OrDisjoint(x: nat, y: nat, s: nat)
    requires x < Pow2(s) && y % Pow2(s) == 0
    ensures Or(x, y) == x + y && Or(y, x) == x + y
  {
    if s > 0 && x > 0 && y > 0 {
      HalfMultiple(y, Pow2(s - 1));
      OrDisjoint(x / 2, y / 2, s - 1);
    }
  }

  lemma {:induction false} HalfMultiple(y: nat, p: nat)
    requires p > 0 && y % (2 * p) == 0
    ensures y % 2 == 0 && (y / 2) % p == 0
  {
    var k := y / (2 * p);
    DivMod(y, 2 * p);
    assert y == 2 * (k * p);
    DivModUnique(y / 2, p, k, 0);
  }

  // ---------------------------------------------------------------- addition and negation

  /** One digit of a carry loop: nothing is lost between the limb and the carry. */
  lemma {:induction false} CarryStep(s: seq<nat>, i: nat, carry: nat, add: nat)
    requires i < |s| && Limbs(s)
    ensures var n := carry + s[i] + add;
            && Limbs(s[i := n % BASE])
            && Value(s[i := n % BASE]) + (n / BASE) * Pow2(32 * (i + 1)) == Value(s) + (carry + add) * Pow2(32 * i)
  {
    hide Pow2, Value;
    var n, p := carry + s[i] + add, Pow2(32 * i);
    ValueSet(s, i, n % BASE);
    PlaceStep(i);
    CarryAlgebra(n % BASE, n / BASE, s[i], carry + add, p);
  }

  lemma {:induction false} CarryAlgebra(low: int, high: int, limb: int, add: int, p: int)
    requires low + BASE * high == limb + add
    ensures (low - limb) * p + high * (BASE * p) == add * p
  {
    assert high * (BASE * p) == (BASE * high) * p;
    assert (low - limb) * p + (BASE * high) * p == (low - limb + BASE * high) * p;
  }

  /** `+=`. */
  method Add(pn: array<nat>, b: seq<nat>)
    requires Limbs(pn[..]) && Limbs(b) && |b| == pn.Length
    modifies pn
    ensures Limbs(pn[..]) && Value(pn[..]) == (Value(old(pn[..])) + Value(b)) % Pow2(32 * pn.Length)
  {
    hide Pow2, Value;
    ghost var was := pn[..];
    var carry: nat := 0;
    EmptyValue(b);
    for i := 0 to pn.Length
      invariant Limbs(pn[..]) && carry <= 1
      invariant Value(pn[..]) + carry * Pow2(32 * i) == Value(was) + Value(b[..i])
    {
      CarryStep(pn[..], i, carry, b[i]);
      ValueNext(b, i);
      ghost var prev := pn[..];
      var n: nat := carry + pn[i] + b[i];
      pn[i] := n % BASE;
      assert pn[..] == prev[i := pn[i]];
      Distribute(carry, b[i], Pow2(32 * i));
      carry := n / BASE;
    }
    assert b[..pn.Length] == b;
    ValueBound(pn[..]);
    DivModUnique(Value(was) + Value(b), Pow2(32 * pn.Length), carry, Value(pn[..]));
  }

  lemma {:induction false} EmptyValue(b: seq<nat>)
    ensures Value(b[..0]) == 0
  {
  }

  /** `++`. */
  method Increment(pn: array<nat>)
    requires Limbs(pn[..])
    modifies pn
    ensures Limbs(pn[..]) && Value(pn[..]) == (Value(old(pn[..])) + 1) % Pow2(32 * pn.Length)
  {
    hide Pow2, Value;
    ghost var was := pn[..];
    ValueBound(was);
    FirstPlace();
    var i := 0;
    while i < pn.Length
      invariant i <= pn.Length && Limbs(pn[..]) && Value(pn[..]) + Pow2(32 * i) == Value(was) + 1
    {
      ghost var prev := pn[..];
      CarryStep(prev, i, 1, 0);
      var n: nat := pn[i] + 1;
      pn[i] := n % BASE;
      assert pn[..] == prev[i := pn[i]];
      if n % BASE != 0 {
        assert n / BASE == 0;
        ValueBound(pn[..]);
        ModSmall(Value(was) + 1, Pow2(32 * pn.Length));
        return;
      }
      assert n / BASE == 1;
      i := i + 1;
    }
    ValueBound(pn[..]);
    DivModUnique(Value(was) + 1, Pow2(32 * pn.Length), 1, Value(pn[..]));
  }

  lemma {:induction false} FirstPlace()
    ensures Pow2(0) == 1
  {
  }

  function Complement(b: seq<nat>): (r: seq<nat>)
    requires Limbs(b)
    ensures |r| == |b| && Limbs(r)
  {
    seq(|b|, i requires 0 <= i < |b| => BASE - 1 - b[i])
  }

  lemma {:induction false} ComplementValue(b: seq<nat>)
    requires Limbs(b)
    ensures Value(Complement(b)) == Pow2(32 * |b|) - 1 - Value(b)
  {
    hide Pow2;
    if b == [] {
      FirstPlace();
    } else {
      var n := |b| - 1;
      assert Complement(b)[..n] == Complement(b[..n]);
      ComplementValue(b[..n]);
      PlaceStep(n);
      ComplementAlgebra(b[n], Pow2(32 * n));
    }
  }

  lemma {:induction false} ComplementAlgebra(x: int, p: int)
    ensures (BASE - 1 - x) * p == BASE * p - p - x * p
  {
  }

  /** Unary minus: complement and increment. */
  method Negate(b: seq<nat>) returns (r: seq<nat>)
    requires Limbs(b)
    ensures |r| == |b| && Limbs(r) && Value(r) == (0 - Value(b)) % Pow2(32 * |b|)
  {
    hide Pow2, Value, Complement;
    var a := new nat[|b|];
    CopyInto(a, Complement(b));
    Increment(a);
    ComplementValue(b);
    r := a[..];
    ModAddMultiple(0 - Value(b), Pow2(32 * |b|), 1);
  }

  method CopyInto(a: array<nat>, s: seq<nat>)
    requires a.Length == |s|
    modifies a
    ensures a[..] == s
  {
    for i := 0 to |s|
      invariant a[..i] == s[..i]
    {
      a[i] := s[i];
    }
  }

  /** `-=`: add the negation. */
  method Subtract(pn: array<nat>, b: seq<nat>)
    requires Limbs(pn[..]) && Limbs(b) && |b| == pn.Length
    modifies pn
    ensures Limbs(pn[..]) && Value(pn[..]) == (Value(old(pn[..])) - Value(b)) % Pow2(32 * pn.Length)
  {
    hide Pow2, Value;
    ghost var was := Value(pn[..]);
    var nb := Negate(b);
    Add(pn, nb);
    var m := Pow2(32 * pn.Length);
    DivMod(0 - Value(b), m);
    ghost var k := (0 - Value(b)) / m;
    assert was + Value(nb) == was - Value(b) + (0 - k) * m;
    ModAddMultiple(was - Value(b), m, 0 - k);
  }

  // ---------------------------------------------------------------- multiplication

  /** The inner loop of `*=`: add `x` times `b`, shifted by `j` limbs, to the accumulator. */
  method AddRow(acc: array<nat>, x: nat, b: seq<nat>, j: nat)
    requires Limbs(acc[..]) && Limbs(b) && |b| == acc.Length && j < acc.Length && x < BASE
    modifies acc
    ensures Limbs(acc[..])
    ensures Value(acc[..]) == (Value(old(acc[..])) + (x * Pow2(32 * j)) * Value(b)) % Pow2(32 * acc.Length)
  {
    hide Pow2, Value;
    ghost var was := acc[..];
    var w := acc.Length;
    ghost var y := x * Pow2(32 * j);
    var carry: nat := 0;
    EmptyValue(b);
    for i := 0 to w - j
      invariant Limbs(acc[..]) && carry < BASE
      invariant Value(acc[..]) + carry * Pow2(32 * (i + j)) == Value(was) + y * Value(b[..i])
    {
      CarryStep(acc[..], i + j, carry, x * b[i]);
      ValueNext(b, i);
      RowAlgebra(x, b[i], i, j, Value(b[..i]), carry);
      RowFits(carry, acc[i + j], x, b[i]);
      ghost var prev := acc[..];
      var n: nat := carry + acc[i + j] + x * b[i];
      acc[i + j] := n % BASE;
      assert acc[..] == prev[i + j := acc[i + j]];
      carry := n / BASE;
    }
    ValueBound(acc[..]);
    RowEnd(Value(was), Value(acc[..]), carry, x, b, j);
  }

  /** The 64-bit intermediate does not overflow, and its upper half is a limb. */
  lemma {:induction false} RowFits(carry: nat, limb: nat, x: nat, y: nat)
    requires carry < BASE && limb < BASE && x < BASE && y < BASE
    ensures carry + limb + x * y < BASE * BASE && (carry + limb + x * y) / BASE < BASE
  {
    MulMono(x, BASE - 1, y);
    MulMono(y, BASE - 1, BASE - 1);
  }

  lemma {:induction false} RowAlgebra(x: nat, d: nat, i: nat, j: nat, v: int, carry: int)
    ensures (carry + x * d) * Pow2(32 * (i + j)) ==
      carry * Pow2(32 * (i + j)) + (x * Pow2(32 * j)) * (v + d * Pow2(32 * i)) - (x * Pow2(32 * j)) * v
  {
    hide Pow2;
    Pow2Add(32 * i, 32 * j);
    RowProduct(x, d, Pow2(32 * i), Pow2(32 * j), v, carry);
  }

  lemma {:induction false} RowProduct(x: int, d: int, p: int, q: int, v: int, carry: int)
    ensures (carry + x * d) * (p * q) == carry * (p * q) + (x * q) * (v + d * p) - (x * q) * v
  {
    assert (x * q) * (v + d * p) == (x * q) * v + (x * q) * (d * p);
    assert (x * q) * (d * p) == (x * d) * (p * q);
  }

  /** What the row leaves out lies beyond the width. */
  lemma {:induction false} RowEnd(was: nat, now: nat, carry: nat, x: nat, b: seq<nat>, j: nat)
    requires j < |b| && now < Pow2(32 * |b|)
    requires now + carry * Pow2(32 * (|b| - j + j)) == was + (x * Pow2(32 * j)) * Value(b[..|b| - j])
    ensures now == (was + (x * Pow2(32 * j)) * Value(b)) % Pow2(32 * |b|)
  {
    hide Pow2, Value;
    var n := |b| - j;
    ValueSplit(b, n);
    Pow2Add(32 * n, 32 * j);
    var m, hi := Pow2(32 * |b|), Value(b[n..]);
    RowBeyond(x, Pow2(32 * j), Value(b[..n]), hi, Pow2(32 * n));
    assert was + (x * Pow2(32 * j)) * Value(b) == (carry + x * hi) * m + now by { Distribute(carry, x * hi, m); }
    DivModUnique(was + (x * Pow2(32 * j)) * Value(b), m, carry + x * hi, now);
  }

  lemma {:induction false} RowBeyond(x: int, q: int, low: int, hi: int, p: int)
    ensures (x * q) * (low + hi * p) == (x * q) * low + (x * hi) * (p * q)
  {
    assert (x * q) * (low + hi * p) == (x * q) * low + (x * q) * (hi * p);
    assert (x * q) * (hi * p) == (x * hi) * (p * q);
  }

  /** `*=`: the product, modulo the width. */
  method Multiply(pn: array<nat>, b: seq<nat>)
    requires Limbs(pn[..]) && Limbs(b) && |b| == pn.Length
    modifies pn
    ensures Limbs(pn[..]) && Value(pn[..]) == (Value(old(pn[..])) * Value(b)) % Pow2(32 * pn.Length)
  {
    hide Pow2, Value;
    ghost var m := Pow2(32 * pn.Length);
    ghost var was := pn[..];
    var a := new nat[pn.Length](_ => 0);
    ValueZero(a[..]);
    EmptyValue(was);
    for j := 0 to pn.Length
      invariant Limbs(a[..]) && pn[..] == was && Value(a[..]) == (Value(was[..j]) * Value(b)) % m
    {
      ghost var before := Value(a[..]);
      AddRow(a, pn[j], b, j);
      ValueNext(was, j);
      RowsStep(Value(was[..j]), was[j] * Pow2(32 * j), Value(b), m);
    }
    assert was[..pn.Length] == was;
    CopyInto(pn, a[..]);
  }

  lemma {:induction false} RowsStep(x: nat, y: nat, b: nat, m: nat)
    requires m > 0
    ensures ((x * b) % m + y * b) % m == ((x + y) * b) % m
  {
    DivMod(x * b, m);
    Distribute(x, y, b);
    ModAddMultiple((x * b) % m + y * b, m, (x * b) / m);
  }

  // ---------------------------------------------------------------- shifts

  /** What of a limb stays, and what moves to the next limb, when shifting left by `s`. */
  function Low(x: nat, s: nat): nat { (x * Pow2(s)) % BASE }

  function Up(x: nat, s: nat): nat
    requires s < 32
  {
    if s == 0 then 0 else Quotient(x, Pow2(32 - s))
  }

  lemma {:induction false} SplitLeft(a: nat, s: nat)
    requires a < BASE && s < 32
    ensures Low(a, s) + BASE * Up(a, s) == a * Pow2(s) && Low(a, s) % Pow2(s) == 0 && Low(a, s) < BASE
      && Up(a, s) < Pow2(s)
  {
    hide Pow2;
    BaseIsPow2();
    Pow2Add(32 - s, s);
    if s == 0 {
      FirstPlace();
    } else {
      LeftAlgebra(a, Pow2(s), Pow2(32 - s));
    }
  }

  lemma {:induction false} LeftAlgebra(a: nat, p: nat, q: nat)
    requires p > 0 && q > 0 && a < q * p
    ensures (a * p) % (q * p) == (a % q) * p && ((a % q) * p) % p == 0 && a / q < p
    ensures (a % q) * p + (q * p) * (a / q) == a * p
  {
    var h, l := a / q, a % q;
    DivMod(a, q);
    LeftSum(a, h, l, p, q);
    LeftRemainder(a, h, l, p, q);
    if h >= p { MulMono(p, h, q); }
  }

  lemma {:induction false} LeftSum(a: int, h: int, l: int, p: int, q: int)
    requires a == h * q + l
    ensures l * p + (q * p) * h == a * p
  {
    Distribute(h * q, l, p);
    assert (h * q) * p == (q * p) * h;
  }

  lemma {:induction false} LeftRemainder(a: int, h: int, l: int, p: nat, q: nat)
    requires p > 0 && q > 0 && 0 <= l < q && l * p + (q * p) * h == a * p
    ensures (a * p) % (q * p) == l * p && (l * p) % p == 0
  {
    MulMono(l, q - 1, p);
    MulMono(0, l, p);
    assert (q - 1) * p == q * p - p;
    assert h * (q * p) == (q * p) * h;
    DivModUnique(a * p, q * p, h, l * p);
    DivModUnique(l * p, p, l, 0);
  }

  lemma {:induction false} LimbSum(low: nat, rest: nat, s: nat)
    requires low < BASE && low % Pow2(s) == 0 && rest < Pow2(s) && s < 32
    ensures low + rest < BASE
  {
    hide Pow2;
    BaseIsPow2();
    Pow2Add(32 - s, s);
    var p, q := Pow2(s), Pow2(32 - s);
    DivMod(low, p);
    var k := low / p;
    if k >= q { MulMono(q, k, p); }
    MulMono(k, q - 1, p);
    assert (q - 1) * p == q * p - p;
  }

  /** One limb of `<<=`: its lower part is or-ed into limb `t`, its upper part into the next one. */
  method PlaceLeft(pn: array<nat>, x: nat, t: nat, s: nat) returns (ghost lost: nat)
    requires Limbs(pn[..]) && x < BASE && s < 32
    requires (forall u :: t < u < pn.Length ==> pn[u] == 0) && (t < pn.Length ==> pn[t] < Pow2(s))
    modifies pn
    ensures Limbs(pn[..]) && (forall u :: t + 1 < u < pn.Length ==> pn[u] == 0)
      && (t + 1 < pn.Length ==> pn[t + 1] < Pow2(s))
    ensures Value(pn[..]) + lost * Pow2(32 * pn.Length) == Value(old(pn[..])) + (x * Pow2(s)) * Pow2(32 * t)
  {
    hide Pow2, Value, Or, Low, Up;
    ghost var was := pn[..];
    var w := pn.Length;
    SplitLeft(x, s);
    ghost var mid := was;
    if t + 1 < w {
      assert was[t + 1] == 0;
      HighFits(Up(x, s), s);
      OrZero(Up(x, s));
      if s != 0 {
        pn[t + 1] := Or(pn[t + 1], Up(x, s));
      }
      mid := was[t + 1 := Up(x, s)];
      UpNone(x);
      assert pn[..] == mid;
      ValueSet(was, t + 1, Up(x, s));
    }
    if t < w {
      OrDisjoint(was[t], Low(x, s), s);
      LimbSum(Low(x, s), was[t], s);
      ValueSet(mid, t, was[t] + Low(x, s));
      pn[t] := Or(pn[t], Low(x, s));
      assert pn[..] == mid[t := was[t] + Low(x, s)];
    }
    lost := if t + 1 < w then 0 else if t + 1 == w then Up(x, s) else (x * Pow2(s)) * Pow2(32 * (t - w));
    PlaceStep(t);
    LeftAccount(Low(x, s), Up(x, s), Pow2(32 * t));
    if t >= w { Beyond(x * Pow2(s), t, w); }
  }

  lemma {:induction false} UpNone(x: nat)
    ensures Up(x, 0) == 0
  {
  }

  lemma {:induction false} HighFits(high: nat, s: nat)
    requires high < Pow2(s) && s < 32
    ensures high < BASE
  {
    hide Pow2;
    BaseIsPow2();
    Pow2Monotone(s, 32);
  }

  lemma {:induction false} OrZero(y: nat)
    ensures Or(0, y) == y
  {
  }

  lemma {:induction false} LeftAccount(low: int, high: int, p: int)
    ensures low * p + high * (BASE * p) == (low + BASE * high) * p
  {
    assert high * (BASE * p) == (BASE * high) * p;
  }

  lemma {:induction false} Beyond(y: nat, t: nat, w: nat)
    requires t >= w
    ensures (y * Pow2(32 * (t - w))) * Pow2(32 * w) == y * Pow2(32 * t)
  {
    hide Pow2;
    Pow2Add(32 * (t - w), 32 * w);
    Assoc(y, Pow2(32 * (t - w)), Pow2(32 * w));
  }

  method Clear(pn: array<nat>)
    modifies pn
    ensures forall i :: 0 <= i < pn.Length ==> pn[i] == 0
  {
    for i := 0 to pn.Length
      invariant forall u :: 0 <= u < i ==> pn[u] == 0
    {
      pn[i] := 0;
    }
  }

  /** `<<=`: multiplication by a power of two, modulo the width. */
  method ShiftLeft(pn: array<nat>, shift: nat)
    requires Limbs(pn[..])
    modifies pn
    ensures Limbs(pn[..]) && Value(pn[..]) == (Value(old(pn[..])) * Pow2(shift)) % Pow2(32 * pn.Length)
  {
    hide Pow2, Value, Or;
    var a, w := pn[..], pn.Length;
    Clear(pn);
    ValueZero(pn[..]);
    EmptyValue(a);
    var k, s := shift / 32, shift % 32;
    ghost var lost := 0;
    for i := 0 to w
      invariant Limbs(pn[..]) && (forall u :: i + k < u < w ==> pn[u] == 0) && (i + k < w ==> pn[i + k] < Pow2(s))
      invariant Value(pn[..]) + lost * Pow2(32 * w) == Value(a[..i]) * Pow2(shift)
    {
      ValueNext(a, i);
      LeftPlace(a[i], Value(a[..i]), i, k, s);
      ghost var more := PlaceLeft(pn, a[i], i + k, s);
      Distribute(lost, more, Pow2(32 * w));
      lost := lost + more;
    }
    assert a[..w] == a;
    ValueBound(pn[..]);
    DivModUnique(Value(a) * Pow2(shift), Pow2(32 * w), lost, Value(pn[..]));
  }

  lemma {:induction false} LeftPlace(x: nat, v: nat, i: nat, k: nat, s: nat)
    ensures (v + x * Pow2(32 * i)) * Pow2(32 * k + s) == v * Pow2(32 * k + s) + (x * Pow2(s)) * Pow2(32 * (i + k))
  {
    hide Pow2;
    Pow2Add(32 * k, s);
    Pow2Add(32 * i, 32 * k);
    LeftProduct(v, x, Pow2(32 * i), Pow2(32 * k), Pow2(s));
  }

  lemma {:induction false} LeftProduct(v: int, x: int, p: int, q: int, r: int)
    ensures (v + x * p) * (q * r) == v * (q * r) + (x * r) * (p * q)
  {
    Distribute(v, x * p, q * r);
    assert (x * p) * (q * r) == (x * r) * (p * q);
  }

  /** What of a limb moves to the limb below, and what stays, when shifting right by `s`. */
  function Down(x: nat, s: nat): nat
    requires s <= 32
  {
    (x % Pow2(s)) * Pow2(32 - s)
  }

  function Stay(x: nat, s: nat): nat { Quotient(x, Pow2(s)) }

  lemma {:induction false} SplitRight(x: nat, s: nat)
    requires x < BASE && s < 32
    ensures (x * Pow2(32 - s)) % BASE == Down(x, s) && Down(x, s) % Pow2(32 - s) == 0
    ensures Stay(x, s) < Pow2(32 - s) && Stay(x, s) < BASE && (s == 0 ==> Down(x, s) == 0)
  {
    hide Pow2;
    BaseIsPow2();
    Pow2Add(s, 32 - s);
    LeftAlgebra(x, Pow2(32 - s), Pow2(s));
    QuotientFits(x, s);
    if s == 0 { FirstPlace(); NoRemainder(x, Pow2(32)); }
  }

  lemma {:induction false} NoRemainder(x: int, p: int)
    ensures (x % 1) * p == 0
  {
    assert x % 1 == 0;
  }

  lemma {:induction false} QuotientFits(x: nat, s: nat)
    requires x < BASE
    ensures x / Pow2(s) < BASE
  {
    var q := Pow2(s);
    DivMod(x, q);
    MulMono(1, q, BASE);
    if x / q >= BASE { MulMono(BASE, x / q, q); }
  }

  /** One limb of `>>=` that lies above the limbs shifted out. */
  method PlaceRight(pn: array<nat>, x: nat, t: nat, s: nat)
    requires Limbs(pn[..]) && x < BASE && s < 32 && t < pn.Length
    requires (forall u :: t <= u < pn.Length ==> pn[u] == 0) && (t > 0 ==> pn[t - 1] < Pow2(32 - s))
    modifies pn
    ensures Limbs(pn[..]) && (forall u :: t < u < pn.Length ==> pn[u] == 0) && pn[t] < Pow2(32 - s)
    ensures Value(pn[..]) ==
      Value(old(pn[..])) + Stay(x, s) * Pow2(32 * t) + if t > 0 then Down(x, s) * Pow2(32 * (t - 1)) else 0
  {
    hide Pow2, Value, Or, Down, Stay;
    ghost var was := pn[..];
    SplitRight(x, s);
    ghost var mid := was;
    if t > 0 {
      if s != 0 {
        OrDisjoint(was[t - 1], Down(x, s), 32 - s);
        LimbSum(Down(x, s), was[t - 1], 32 - s);
        pn[t - 1] := Or(pn[t - 1], (x * Pow2(32 - s)) % BASE);
      }
      mid := was[t - 1 := was[t - 1] + Down(x, s)];
      assert pn[..] == mid;
      ValueSet(was, t - 1, was[t - 1] + Down(x, s));
    }
    OrZero(Stay(x, s));
    ValueSet(mid, t, Stay(x, s));
    pn[t] := Or(pn[t], Stay(x, s));
    assert pn[..] == mid[t := Stay(x, s)];
  }

  /** `v` is the value so far of a shift right by `32 * k + s` of the number `x` in `i` limbs; `low`
      is what was shifted out. */
  ghost predicate RightInv(v: int, low: int, x: int, i: nat, k: nat, s: nat) {
    && v * Pow2(32 * k + s) + low == x && low >= 0
    && if i <= k then low < Pow2(32 * i) && v == 0 else low < Pow2(32 * k + s)
  }

  /** `>>=`: division by a power of two, rounding down. */
  method ShiftRight(pn: array<nat>, shift: nat)
    requires Limbs(pn[..])
    modifies pn
    ensures Limbs(pn[..]) && Value(pn[..]) == Value(old(pn[..])) / Pow2(shift)
  {
    hide Pow2, Value, Or, RightInv;
    var a, w := pn[..], pn.Length;
    Clear(pn);
    ValueZero(pn[..]);
    EmptyValue(a);
    var k, s := shift / 32, shift % 32;
    ghost var low := 0;
    RightStart(k, s);
    for i := 0 to w
      invariant Limbs(pn[..]) && (forall u :: 0 <= u < w && i - k <= u ==> pn[u] == 0)
        && (i > k ==> pn[i - k - 1] < Pow2(32 - s))
      invariant RightInv(Value(pn[..]), low, Value(a[..i]), i, k, s)
    {
      ValueNext(a, i);
      RightStep(Value(pn[..]), low, Value(a[..i]), a[i], i, k, s);
      if i >= k {
        PlaceRight(pn, a[i], i - k, s);
      }
      low := low + RightLow(a[i], i, k, s);
    }
    assert a[..w] == a;
    RightEnd(Value(pn[..]), low, Value(a), w, k, s);
  }

  /** What limb `i` contributes to the part shifted out, and to the part that stays. */
  ghost function RightLow(x: nat, i: nat, k: nat, s: nat): int {
    if i < k then x * Pow2(32 * i) else if i == k then (x % Pow2(s)) * Pow2(32 * k) else 0
  }

  ghost function RightStays(x: nat, i: nat, k: nat, s: nat): int
    requires s < 32
  {
    if i < k then 0
    else Stay(x, s) * Pow2(32 * (i - k)) + if i > k then Down(x, s) * Pow2(32 * (i - k - 1)) else 0
  }

  lemma {:induction false} RightStart(k: nat, s: nat)
    ensures RightInv(0, 0, 0, 0, k, s)
  {
  }

  lemma {:induction false} RightStep(v: int, low: int, x: int, limb: nat, i: nat, k: nat, s: nat)
    requires RightInv(v, low, x, i, k, s) && limb < BASE && s < 32
    ensures RightInv(v + RightStays(limb, i, k, s), low + RightLow(limb, i, k, s), x + limb * Pow2(32 * i), i + 1, k, s)
  {
    hide Pow2;
    if i < k {
      RightBelow(limb, low, i);
    } else if i == k {
      RightFirstStep(v, low, x, limb, k, s);
    } else {
      RightNextStep(v, low, x, limb, i, k, s);
    }
  }

  lemma {:induction false} RightFirstStep(v: int, low: int, x: int, limb: nat, k: nat, s: nat)
    requires RightInv(v, low, x, k, k, s) && s < 32
    ensures RightInv(v + RightStays(limb, k, k, s), low + RightLow(limb, k, k, s), x + limb * Pow2(32 * k), k + 1, k, s)
  {
    hide Pow2;
    RightFirst(limb, low, k, s);
  }

  lemma {:induction false} RightNextStep(v: int, low: int, x: int, limb: nat, i: nat, k: nat, s: nat)
    requires RightInv(v, low, x, i, k, s) && s < 32 && k < i
    ensures RightInv(v + RightStays(limb, i, k, s), low, x + limb * Pow2(32 * i), i + 1, k, s)
  {
    hide Pow2;
    RightNext(limb, v, i, k, s);
  }

  lemma {:induction false} RightEnd(v: int, low: int, x: int, w: nat, k: nat, s: nat)
    requires RightInv(v, low, x, w, k, s)
    ensures v == x / Pow2(32 * k + s)
  {
    hide Pow2;
    if w <= k { RightAll(w, k, s); }
    DivModUnique(x, Pow2(32 * k + s), v, low);
  }

  lemma {:induction false} RightBelow(x: nat, low: int, i: nat)
    requires x < BASE && 0 <= low < Pow2(32 * i)
    ensures 0 <= low + x * Pow2(32 * i) < Pow2(32 * (i + 1))
  {
    hide Pow2;
    PlaceStep(i);
    var p := Pow2(32 * i);
    MulMono(x, BASE - 1, p);
    assert (BASE - 1) * p == BASE * p - p;
  }

  lemma {:induction false} RightFirst(x: nat, low: int, k: nat, s: nat)
    requires 0 <= low < Pow2(32 * k)
    ensures ((x / Pow2(s)) * Pow2(0)) * Pow2(32 * k + s) + (x % Pow2(s)) * Pow2(32 * k) == x * Pow2(32 * k)
    ensures 0 <= low + (x % Pow2(s)) * Pow2(32 * k) < Pow2(32 * k + s)
  {
    hide Pow2;
    FirstPlace();
    Pow2Add(32 * k, s);
    var p, q := Pow2(32 * k), Pow2(s);
    DivMod(x, q);
    FirstProduct(x / q, x % q, p, q);
    RemainderFits(x % q, low, p, q);
  }

  lemma {:induction false} RemainderFits(r: int, low: int, p: nat, q: nat)
    requires 0 <= r < q && 0 <= low < p
    ensures 0 <= low + r * p < p * q
  {
    MulMono(r, q - 1, p);
    assert (q - 1) * p == p * q - p;
  }

  lemma {:induction false} FirstProduct(h: int, l: int, p: int, q: int)
    ensures h * (p * q) + l * p == (h * q + l) * p
  {
    assert h * (p * q) == (h * q) * p;
  }

  lemma {:induction false} RightNext(x: nat, v: int, i: nat, k: nat, s: nat)
    requires k < i && s < 32
    ensures (v + (x / Pow2(s)) * Pow2(32 * (i - k))
      + ((x % Pow2(s)) * Pow2(32 - s)) * Pow2(32 * (i - k - 1))) * Pow2(32 * k + s)
            == v * Pow2(32 * k + s) + x * Pow2(32 * i)
  {
    hide Pow2;
    BaseIsPow2();
    Pow2Add(32 - s, s);
    Pow2Add(32 * k, s);
    PlaceStep(i - k - 1);
    PlaceStep(i - 1);
    Pow2Add(32 * (i - k - 1), 32 * k);
    var q := Pow2(s);
    DivMod(x, q);
    NextProduct(v, x / q, x % q, Pow2(32 - s), q, Pow2(32 * (i - k - 1)), Pow2(32 * k));
  }

  lemma {:induction false} NextProduct(v: int, h: int, l: int, p: int, q: int, d: int, c: int)
    ensures (v + h * ((p * q) * d) + (l * p) * d) * (c * q) == v * (c * q) + (h * q + l) * ((p * q) * (d * c))
  {
    assert h * ((p * q) * d) + (l * p) * d == (h * q + l) * (p * d);
    Distribute(v, (h * q + l) * (p * d), c * q);
    NextGroup(h * q + l, p, d, c, q);
  }

  lemma {:induction false} NextGroup(x: int, p: int, d: int, c: int, q: int)
    ensures (x * (p * d)) * (c * q) == x * ((p * q) * (d * c))
  {
    Assoc(x, p * d, c * q);
    assert (p * d) * (c * q) == (p * q) * (d * c);
  }

  lemma {:induction false} RightAll(w: nat, k: nat, s: nat)
    requires w <= k
    ensures Pow2(32 * w) <= Pow2(32 * k + s)
  {
    hide Pow2;
    Pow2Monotone(32 * k + s, 32 * w);
  }
}
