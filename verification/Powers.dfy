/** Powers of two and the value of a number written in 32-bit limbs. */
module Powers {

  function Pow2(n: nat): (r: nat)
    ensures r > n
  {
    if n == 0 then 1 else 2 * Pow2(n - 1)
  }

  lemma {:induction false} Pow2Add(a: nat, b: nat)
    ensures Pow2(a + b) == Pow2(a) * Pow2(b)
  {
    if a > 0 {
      Pow2Add(a - 1, b);
      Double(Pow2(a - 1), Pow2(b));
      assert Pow2(a + b) == 2 * Pow2(a - 1 + b);
    } else {
      assert Pow2(0) == 1;
    }
  }

  lemma {:induction false} Double(x: int, y: int)
    ensures 2 * (x * y) == (2 * x) * y
  {
  }

  lemma {:induction false} Pow2Monotone(a: nat, b: nat)
    ensures Pow2(a) < Pow2(b) <==> a < b
  {
    if a > 0 && b > 0 { Pow2Monotone(a - 1, b - 1); }
  }

  // ---------------------------------------------------------------- division by a positive number

  lemma {:induction false} MulMono(a: int, b: int, c: nat)
    requires a <= b
    ensures a * c <= b * c
  {
    assert b * c - a * c == (b - a) * c >= 0;
  }

  lemma {:induction false} MulStrict(a: int, b: int, c: nat)
    requires a < b && c > 0
    ensures a * c < b * c
  {
    MulMono(a + 1, b, c);
    assert (a + 1) * c == a * c + c;
  }

  lemma {:induction false} Assoc(x: int, y: int, z: int)
    ensures (x * y) * z == x * (y * z)
  {
  }

  lemma {:induction false} Distribute(a: int, b: int, p: int)
    ensures (a + b) * p == a * p + b * p
  {
  }

  lemma {:induction false} SmallMultiple(k: int, d: nat)
    requires 0 - d < k * d < d
    ensures k == 0
  {
    if k >= 1 { MulMono(1, k, d); } else if k <= -1 { MulMono(k, -1, d); }
  }

  lemma {:induction false} DivModUnique(a: int, d: nat, q: int, r: int)
    requires d > 0 && a == q * d + r && 0 <= r < d
    ensures a / d == q && a % d == r
  {
    var q', r' := a / d, a % d;
    DivMod(a, d);
    assert (q - q') * d == q * d - q' * d;
    SmallMultiple(q - q', d);
  }

  function Quotient(x: nat, d: nat): (q: nat)
    requires d > 0
    ensures d > 1 && x > 0 ==> q < x
  {
    QuotientLess(x, d);
    x / d
  }

  lemma {:induction false} QuotientLess(x: nat, d: nat)
    requires d > 0
    ensures x / d >= 0 && (d > 1 && x > 0 ==> x / d < x)
  {
    var q := x / d;
    DivMod(x, d);
    if q < 0 { MulMono(q, -1, d); }
    if d > 1 && q > 0 { MulMono(2, d, q); }
  }

  lemma {:induction false} DivMod(a: int, d: nat)
    requires d > 0
    ensures a == (a / d) * d + a % d && 0 <= a % d < d
  {
  }

  lemma {:induction false} ModAddMultiple(a: int, d: nat, k: int)
    requires d > 0
    ensures (a + k * d) % d == a % d
  {
    DivMod(a, d);
    assert (a / d + k) * d == (a / d) * d + k * d;
    DivModUnique(a + k * d, d, a / d + k, a % d);
  }

  lemma {:induction false} ModSmall(a: int, d: nat)
    requires 0 <= a < d
    ensures a % d == a
  {
    DivModUnique(a, d, 0, a);
  }

  // ---------------------------------------------------------------- limbs

  const BASE: nat := 0x1_0000_0000

  lemma {:induction false} BaseIsPow2()
    ensures BASE == Pow2(32)
  {
    assert Pow2(8) == 256;
    Pow2Add(8, 8);
    Pow2Add(16, 16);
  }

  ghost predicate Limbs(s: seq<nat>) { forall i :: 0 <= i < |s| ==> s[i] < BASE }

  /** The number written by the limbs `s`, least significant first. */
  function Value(s: seq<nat>): nat {
    if s == [] then 0 else Value(s[..|s| - 1]) + s[|s| - 1] * Pow2(32 * (|s| - 1))
  }

  lemma {:induction false} PlaceStep(i: nat)
    ensures Pow2(32 * (i + 1)) == BASE * Pow2(32 * i)
  {
    BaseIsPow2();
    Pow2Add(32, 32 * i);
  }

  lemma {:induction false} ValueBound(s: seq<nat>)
    requires Limbs(s)
    ensures Value(s) < Pow2(32 * |s|)
  {
    hide Pow2;
    if s != [] {
      var n := |s| - 1;
      ValueBound(s[..n]);
      PlaceStep(n);
      var p := Pow2(32 * n);
      MulMono(s[n], BASE - 1, p);
      assert (BASE - 1) * p == BASE * p - p;
    }
  }

  lemma {:induction false} ValueZero(s: seq<nat>)
    requires forall i :: 0 <= i < |s| ==> s[i] == 0
    ensures Value(s) == 0
  {
    if s != [] { ValueZero(s[..|s| - 1]); }
  }

  /** Changing one limb. */
  lemma {:induction false} ValueSet(s: seq<nat>, i: nat, x: nat)
    requires i < |s|
    ensures Value(s[i := x]) == Value(s) + (x - s[i]) * Pow2(32 * i)
  {
    hide Pow2;
    var n, t := |s| - 1, s[i := x];
    if i == n {
      assert t[..n] == s[..n];
      var p := Pow2(32 * n);
      assert x * p == s[n] * p + (x - s[n]) * p;
    } else {
      ValueSet(s[..n], i, x);
      assert t[..n] == s[..n][i := x];
    }
  }

  lemma {:induction false} ValueNext(s: seq<nat>, i: nat)
    requires i < |s|
    ensures Value(s[..i + 1]) == Value(s[..i]) + s[i] * Pow2(32 * i)
  {
    assert s[..i + 1][..i] == s[..i];
  }

  /** The upper limbs count in units of the place they start at. */
  lemma {:induction false} ValueSplit(s: seq<nat>, i: nat)
    requires i <= |s|
    ensures Value(s) == Value(s[..i]) + Value(s[i..]) * Pow2(32 * i)
  {
    hide Pow2;
    if i == |s| {
      assert s[..i] == s && s[i..] == [];
    } else {
      var n := |s| - 1;
      ValueSplit(s[..n], i);
      var up := s[i..];
      assert s[..n][..i] == s[..i] && s[..n][i..] == up[..|up| - 1] && up[|up| - 1] == s[n];
      Pow2Add(32 * (n - i), 32 * i);
      Regroup(Value(up[..|up| - 1]), s[n], Pow2(32 * (n - i)), Pow2(32 * i));
    }
  }

  lemma {:induction false} Regroup(a: int, x: int, b: int, c: int)
    ensures (a + x * b) * c == a * c + x * (b * c)
  {
  }
}
