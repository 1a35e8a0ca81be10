/** Comparison, bit length, long division, and the work of a compact target. */
module ArithDivide {
  import opened Powers
  import opened ArithUint

  // ---------------------------------------------------------------- comparison

  lemma {:induction false} CompareAt(a: seq<nat>, b: seq<nat>, i: nat)
    requires |a| == |b| && i < |a| && Limbs(a) && a[i] < b[i] && a[i + 1..] == b[i + 1..]
    ensures Value(a) < Value(b)
  {
    hide Pow2, Value;
    ValueSplit(a, i + 1);
    ValueSplit(b, i + 1);
    ValueNext(a, i);
    ValueNext(b, i);
    ValueBound(a[..i]);
    var p := Pow2(32 * i);
    MulMono(a[i] + 1, b[i], p);
    Distribute(a[i], 1, p);
  }

  /** `CompareTo`: from the most significant limb down. */
  method CompareTo(a: seq<nat>, b: seq<nat>) returns (r: int)
    requires |a| == |b| && Limbs(a) && Limbs(b)
    ensures (r < 0 <==> Value(a) < Value(b)) && (r > 0 <==> Value(a) > Value(b)) && (r == 0 <==> a == b)
  {
    hide Pow2, Value;
    var i := |a|;
    while i > 0
      invariant 0 <= i <= |a| && a[i..] == b[i..]
    {
      i := i - 1;
      assert a[i..] == [a[i]] + a[i + 1..] && b[i..] == [b[i]] + b[i + 1..];
      if a[i] < b[i] {
        CompareAt(a, b, i);
        return -1;
      }
      if a[i] > b[i] {
        CompareAt(b, a, i);
        return 1;
      }
    }
    assert a == a[0..] == b[0..] == b;
    r := 0;
  }

  // ---------------------------------------------------------------- bit length

  /** `n` bits are needed to write `v`. */
  ghost predicate HasBits(v: nat, n: nat) { if v == 0 then n == 0 else n > 0 && Pow2(n - 1) <= v < Pow2(n) }

  /** The inner loop of `bits`: the length of one non-zero limb. */
  method LimbBits(x: nat) returns (n: nat)
    requires 0 < x < BASE
    ensures 1 <= n <= 32 && HasBits(x, n)
  {
    hide Pow2;
    BaseIsPow2();
    var nbits := 31;
    while nbits > 0
      invariant 0 <= nbits <= 31 && x < Pow2(nbits + 1)
    {
      BitSet(x, nbits);
      if (x / Pow2(nbits)) % 2 == 1 { return nbits + 1; }
      nbits := nbits - 1;
    }
    OneBit(x);
    n := 1;
  }

  lemma {:induction false} OneBit(x: nat)
    requires 0 < x < Pow2(1)
    ensures HasBits(x, 1)
  {
  }

  /** For a number below twice a power, its bit tells on which side of the power it lies. */
  lemma {:induction false} BitSet(x: nat, k: nat)
    requires x < Pow2(k + 1)
    ensures (x / Pow2(k)) % 2 == 1 <==> x >= Pow2(k)
  {
    var p := Pow2(k);
    if x >= p { DivModUnique(x, p, 1, x - p); } else { DivModUnique(x, p, 0, x); }
  }

  /** `bits`: the position of the highest set bit plus one. */
  method Bits(s: seq<nat>) returns (n: nat)
    requires Limbs(s)
    ensures HasBits(Value(s), n) && n <= 32 * |s|
  {
    hide Pow2, Value;
    var pos := |s|;
    while pos > 0
      invariant 0 <= pos <= |s| && forall i :: pos <= i < |s| ==> s[i] == 0
    {
      pos := pos - 1;
      if s[pos] != 0 {
        var k := LimbBits(s[pos]);
        TopLimb(s, pos, k);
        return 32 * pos + k;
      }
    }
    ValueZero(s);
    n := 0;
  }

  lemma {:induction false} TopLimb(s: seq<nat>, pos: nat, k: nat)
    requires Limbs(s) && pos < |s| && s[pos] > 0 && HasBits(s[pos], k) && k > 0
      && forall i :: pos < i < |s| ==> s[i] == 0
    ensures HasBits(Value(s), 32 * pos + k)
  {
    hide Pow2, Value;
    ValueSplit(s, pos + 1);
    ValueZero(s[pos + 1..]);
    ValueNext(s, pos);
    ValueBound(s[..pos]);
    var p := Pow2(32 * pos);
    Pow2Add(k - 1, 32 * pos);
    Pow2Add(k, 32 * pos);
    MulMono(Pow2(k - 1), s[pos], p);
    MulMono(s[pos] + 1, Pow2(k), p);
    Distribute(s[pos], 1, p);
  }

  // ---------------------------------------------------------------- division

  /** The bits of `q` up to bit `shift` are clear. */
  ghost predicate ClearBelow(q: seq<nat>, shift: int) {
    forall t :: 0 <= t < |q| && 32 * t <= shift ==> LimbClear(q[t], shift - 32 * t)
  }

  ghost predicate LimbClear(x: nat, r: nat) { if r >= 31 then x == 0 else x % Pow2(r + 1) == 0 }

  /** Setting one bit of the quotient. */
  lemma {:induction false} SetBit(q: seq<nat>, shift: nat)
    requires Limbs(q) && shift < 32 * |q| && ClearBelow(q, shift)
    ensures var k := shift / 32; var q' := q[k := Or(q[k], Pow2(shift % 32))];
            Limbs(q') && Value(q') == Value(q) + Pow2(shift) && ClearBelow(q', shift - 1)
  {
    hide Pow2, Value, Or;
    var k, r := shift / 32, shift % 32;
    assert LimbClear(q[k], r);
    BitFits(q[k], r);
    ValueSet(q, k, q[k] + Pow2(r));
    Pow2Add(r, 32 * k);
    forall t | 0 <= t < |q| && 32 * t <= shift - 1
      ensures LimbClear(q[k := Or(q[k], Pow2(r))][t], shift - 1 - 32 * t)
    {
      assert t < k ==> LimbClear(q[t], shift - 32 * t);
    }
  }

  /** A clear bit: or is addition, within the limb, and the bits below stay clear. */
  lemma {:induction false} BitFits(x: nat, r: nat)
    requires x < BASE && r < 32 && LimbClear(x, r)
    ensures Or(x, Pow2(r)) == x + Pow2(r) < BASE && (r > 0 ==> LimbClear(x + Pow2(r), r - 1))
  {
    hide Pow2, Or;
    BaseIsPow2();
    Pow2Monotone(r, r + 1);
    Pow2Add(1, r);
    FirstPlace();
    if r == 31 {
      Pow2Monotone(31, 32);
      ModZero(Pow2(32));
      OrDisjoint(Pow2(31), x, 32);
      DivModUnique(x + Pow2(r), Pow2(r), 1, 0);
    } else {
      OrDisjoint(Pow2(r), x, r + 1);
      LimbSum(x, Pow2(r), r + 1);
      BitMultiple(x, r);
    }
  }

  lemma {:induction false} ModZero(d: nat)
    requires d > 0
    ensures 0 % d == 0
  {
    DivModUnique(0, d, 0, 0);
  }

  lemma {:induction false} BitMultiple(x: nat, r: nat)
    requires x % Pow2(r + 1) == 0
    ensures (x + Pow2(r)) % Pow2(r) == 0 && x % Pow2(r) == 0
  {
    var p := Pow2(r);
    DivMod(x, 2 * p);
    var k := x / (2 * p);
    assert x == (2 * k) * p;
    DivModUnique(x, p, 2 * k, 0);
    Distribute(2 * k, 1, p);
    DivModUnique(x + p, p, 2 * k + 1, 0);
  }

  lemma {:induction false} StaysClear(q: seq<nat>, shift: nat)
    requires ClearBelow(q, shift)
    ensures ClearBelow(q, shift - 1)
  {
    hide Pow2;
    forall t | 0 <= t < |q| && 32 * t <= shift - 1 ensures LimbClear(q[t], shift - 1 - 32 * t) {
      assert LimbClear(q[t], shift - 32 * t);
      var r := shift - 32 * t;
      if r < 31 { BitMultiple(q[t], r); } else { ModZero(Pow2(r)); }
    }
  }

  /** Where shift-and-subtract stands: `n` has been written as `q * d + r` with `r` below `d` times a
      power of two. */
  ghost predicate Dividing(n: nat, d: nat, q: nat, r: nat, shift: int)
    requires shift >= -1
  {
    n == q * d + r && r < d * Pow2(shift + 1)
  }

  lemma {:induction false} DivideStart(n: nat, d: nat, nBits: nat, dBits: nat)
    requires HasBits(n, nBits) && HasBits(d, dBits) && d > 0 && dBits <= nBits
    ensures Dividing(n, d, 0, n, nBits - dBits)
    ensures d * Pow2(nBits - dBits) < Pow2(nBits)
  {
    hide Pow2;
    var s := nBits - dBits;
    Pow2Add(dBits - 1, s + 1);
    Pow2Add(dBits, s);
    MulMono(Pow2(dBits - 1), d, Pow2(s + 1));
    MulMono(d + 1, Pow2(dBits), Pow2(s));
    Distribute(d, 1, Pow2(s));
  }

  lemma {:induction false} DivideStep(n: nat, d: nat, q: nat, r: nat, shift: nat)
    requires Dividing(n, d, q, r, shift)
    ensures r >= d * Pow2(shift) ==> Dividing(n, d, q + Pow2(shift), r - d * Pow2(shift), shift - 1)
    ensures r < d * Pow2(shift) ==> Dividing(n, d, q, r, shift - 1)
  {
    hide Pow2;
    var p := Pow2(shift);
    Pow2Add(1, shift);
    OneBitPower();
    Distribute(q, p, d);
    assert p * d == d * p;
    Halves(d, p);
  }

  lemma {:induction false} OneBitPower()
    ensures Pow2(1) == 2
  {
  }

  lemma {:induction false} Halves(d: int, p: int)
    ensures d * (2 * p) == d * p + d * p
  {
  }

  lemma {:induction false} DivideEnd(n: nat, d: nat, q: nat, r: nat)
    requires d > 0 && Dividing(n, d, q, r, -1)
    ensures q == n / d
  {
    FirstPlace();
    DivModUnique(n, d, q, r);
  }

  lemma {:induction false} TooShort(n: nat, d: nat, nBits: nat, dBits: nat)
    requires HasBits(n, nBits) && HasBits(d, dBits) && dBits > nBits
    ensures d > 0 && n / d == 0
  {
    hide Pow2;
    Pow2Monotone(dBits - 1, nBits);
    if n == 0 { FirstPlace(); }
    DivModUnique(n, d, 0, n);
  }

  lemma {:induction false} HalveShifted(d: nat, shift: nat)
    requires shift > 0
    ensures (d * Pow2(shift)) / Pow2(1) == d * Pow2(shift - 1)
  {
    var p := Pow2(shift - 1);
    OneBitPower();
    Halves(d, p);
    DivModUnique(d * Pow2(shift), 2, d * p, 0);
  }

  /** One successful comparison: subtract the divisor and set the bit of the quotient. */
  method TakeBit(pn: array<nat>, num: array<nat>, div: seq<nat>, shift: nat)
    requires pn != num && pn.Length == num.Length == |div| && shift < 32 * pn.Length
    requires Limbs(pn[..]) && Limbs(num[..]) && Limbs(div) && ClearBelow(pn[..], shift) && Value(div) <= Value(num[..])
    modifies pn, num
    ensures Limbs(pn[..]) && Limbs(num[..]) && ClearBelow(pn[..], shift - 1)
    ensures Value(pn[..]) == Value(old(pn[..])) + Pow2(shift) && Value(num[..]) == Value(old(num[..])) - Value(div)
  {
    hide Pow2, Value, Or, ClearBelow;
    ValueBound(num[..]);
    ModSmall(Value(num[..]) - Value(div), Pow2(32 * num.Length));
    Subtract(num, div);
    SetBit(pn[..], shift);
    ghost var q := pn[..];
    pn[shift / 32] := Or(pn[shift / 32], Pow2(shift % 32));
    assert pn[..] == q[shift / 32 := Or(q[shift / 32], Pow2(shift % 32))];
  }

  /** `/=`: the exact quotient, rounded down, for every divisor but zero. */
  method Divide(pn: array<nat>, b: seq<nat>) returns (threw: bool)
    requires Limbs(pn[..]) && Limbs(b) && |b| == pn.Length
    modifies pn
    ensures threw <==> Value(b) == 0
    ensures Limbs(pn[..]) && Value(pn[..]) == if threw then 0 else Value(old(pn[..])) / Value(b)
  {
    hide Pow2, Value, Or, HasBits, ClearBelow, Dividing;
    ghost var n, d, m := Value(pn[..]), Value(b), Pow2(32 * pn.Length);
    var div, num := new nat[pn.Length], new nat[pn.Length];
    CopyInto(div, b);
    CopyInto(num, pn[..]);
    Clear(pn);
    ValueZero(pn[..]);
    ValueBound(num[..]);
    var numBits := Bits(num[..]);
    var divBits := Bits(div[..]);
    BitsZero(d, divBits);
    if divBits == 0 { return true; }
    threw := false;
    if divBits > numBits {
      TooShort(n, d, numBits, divBits);
      return;
    }
    DivideStart(n, d, numBits, divBits);
    var shift := numBits - divBits;
    ShiftLeft(div, shift);
    Pow2Monotone(32 * pn.Length, numBits);
    ModSmall(d * Pow2(shift), m);
    AllClear(pn[..], shift);
    while shift >= 0
      invariant -1 <= shift < 32 * pn.Length && Limbs(pn[..]) && Limbs(num[..]) && Limbs(div[..])
      invariant Dividing(n, d, Value(pn[..]), Value(num[..]), shift) && ClearBelow(pn[..], shift)
      invariant shift >= 0 ==> Value(div[..]) == d * Pow2(shift)
    {
      DivideStep(n, d, Value(pn[..]), Value(num[..]), shift);
      var c := CompareTo(num[..], div[..]);
      if c >= 0 {
        TakeBit(pn, num, div[..], shift);
      } else {
        StaysClear(pn[..], shift);
      }
      ShiftRight(div, 1);
      if shift > 0 { HalveShifted(d, shift); }
      shift := shift - 1;
    }
    DivideEnd(n, d, Value(pn[..]), Value(num[..]));
  }

  lemma {:induction false} BitsZero(v: nat, n: nat)
    requires HasBits(v, n)
    ensures n == 0 <==> v == 0
  {
  }

  lemma {:induction false} AllClear(q: seq<nat>, shift: nat)
    requires forall i :: 0 <= i < |q| ==> q[i] == 0
    ensures ClearBelow(q, shift)
  {
    hide Pow2;
    forall t | 0 <= t < |q| && 32 * t <= shift
      ensures LimbClear(q[t], shift - 32 * t)
    {
      ModZero(Pow2(shift - 32 * t + 1));
    }
  }

  // ---------------------------------------------------------------- compact targets

  const WIDTH: nat := 8

  /** The mantissa, the exponent in bytes and the sign of a compact number. */
  function Mantissa(c: nat): nat { c % 0x80_0000 }

  function Exponent(c: nat): nat { c / 0x100_0000 }

  predicate SignBit(c: nat) { (c / 0x80_0000) % 2 == 1 }

  /** The number a compact encoding stands for, without its sign. */
  function CompactValue(c: nat): nat {
    if Exponent(c) <= 3 then Quotient(Mantissa(c), Pow2(8 * (3 - Exponent(c))))
    else Mantissa(c) * Pow2(8 * (Exponent(c) - 3))
  }

  function SmallLimbs(x: nat): (r: seq<nat>)
    requires x < BASE
    ensures |r| == WIDTH && Limbs(r)
  {
    [x, 0, 0, 0, 0, 0, 0, 0]
  }

  lemma {:induction false} SmallValue(x: nat)
    requires x < BASE
    ensures Value(SmallLimbs(x)) == x
  {
    hide Pow2;
    var s := SmallLimbs(x);
    ValueSplit(s, 1);
    ValueZero(s[1..]);
    FirstPlace();
    ValueNext(s, 0);
    EmptyValue(s);
  }

  /** `SetCompact`. The overflow flag is raised exactly when the number does not fit. */
  method SetCompact(nCompact: nat) returns (pn: array<nat>, negative: bool, overflow: bool)
    requires nCompact < BASE
    ensures fresh(pn) && pn.Length == WIDTH && Limbs(pn[..]) && Value(pn[..]) == CompactValue(nCompact) % Pow2(256)
    ensures negative <==> SignBit(nCompact) && CompactValue(nCompact) != 0
    ensures overflow <==> CompactValue(nCompact) >= Pow2(256)
  {
    hide Pow2, Value;
    var nSize := Exponent(nCompact);
    var nWord := Mantissa(nCompact);
    pn := new nat[WIDTH];
    if nSize <= 3 {
      WordFits(nWord, Pow2(8 * (3 - nSize)));
      nWord := Quotient(nWord, Pow2(8 * (3 - nSize)));
      SmallFits(nWord);
      CopyInto(pn, SmallLimbs(nWord));
      SmallValue(nWord);
    } else {
      CopyInto(pn, SmallLimbs(nWord));
      SmallValue(nWord);
      ShiftLeft(pn, 8 * (nSize - 3));
      ZeroProduct(nWord, Pow2(8 * (nSize - 3)));
    }
    negative := nWord != 0 && SignBit(nCompact);
    overflow := nWord != 0 && (nSize > 34 || (nWord > 0xff && nSize > 33) || (nWord > 0xffff && nSize > 32));
    if nSize > 3 { OverflowExact(nWord, nSize); }
  }

  lemma {:induction false} WordFits(w: nat, d: nat)
    requires w < 0x80_0000 && d > 0
    ensures Quotient(w, d) < 0x80_0000
  {
    DivMod(w, d);
    MulMono(1, d, 0x80_0000);
    if w / d >= 0x80_0000 { MulMono(0x80_0000, w / d, d); }
  }

  lemma {:induction false} SmallFits(w: nat)
    requires w < 0x80_0000
    ensures w < Pow2(256) && w % Pow2(256) == w
  {
    hide Pow2;
    MantissaPower();
    Pow2Monotone(23, 256);
    ModSmall(w, Pow2(256));
  }

  lemma {:induction false} MantissaPower()
    ensures Pow2(23) == 0x80_0000 && Pow2(16) == 0x1_0000 && Pow2(8) == 0x100
  {
    assert Pow2(8) == 0x100;
    Pow2Add(8, 8);
    assert Pow2(7) == 0x80;
    Pow2Add(16, 7);
  }

  lemma {:induction false} ZeroProduct(w: nat, p: nat)
    requires p > 0
    ensures w * p == 0 <==> w == 0
  {
    if w > 0 { MulMono(1, w, p); }
  }

  /** The flag's test says whether mantissa times power reaches 2^256. */
  lemma {:induction false} OverflowExact(w: nat, size: nat)
    requires w < 0x80_0000 && size > 3
    ensures w * Pow2(8 * (size - 3)) >= Pow2(256) <==>
      w != 0 && (size > 34 || (w > 0xff && size > 33) || (w > 0xffff && size > 32))
  {
    hide Pow2;
    MantissaPower();
    FirstPlace();
    var e := 8 * (size - 3);
    if size > 34 {
      Pow2Monotone(e, 256);
      ProductReaches(w, Pow2(e), Pow2(256), 1);
    } else if size == 34 {
      Pow2Add(8, e);
      ProductReaches(w, Pow2(e), Pow2(256), 0x100);
    } else if size == 33 {
      Pow2Add(16, e);
      ProductReaches(w, Pow2(e), Pow2(256), 0x1_0000);
    } else {
      Pow2Add(23, e);
      Pow2Monotone(23 + e, 256);
      MulMono(w + 1, 0x80_0000, Pow2(e));
      Distribute(w, 1, Pow2(e));
    }
  }

  lemma {:induction false} ProductReaches(w: nat, p: nat, m: nat, k: nat)
    requires p > 0 && m > 0 && k > 0 && (if k == 1 then p >= m else k * p == m)
    ensures w * p >= m <==> w >= k
  {
    if w >= k {
      MulMono(k, w, p);
    } else {
      MulMono(w + 1, k, p);
      Distribute(w, 1, p);
      if k == 1 { assert w == 0; }
    }
  }

  /** A target of this form is never all ones, so adding one does not wrap. */
  lemma {:induction false} TargetNotFull(c: nat)
    requires 0 < CompactValue(c) < Pow2(256)
    ensures CompactValue(c) + 1 < Pow2(256)
  {
    hide Pow2, Quotient;
    var w, size := Mantissa(c), Exponent(c);
    if size <= 3 {
      WordFits(w, Pow2(8 * (3 - size)));
      MantissaPower();
      Pow2Monotone(24, 256);
      Pow2Monotone(23, 24);
    } else {
      EvenPower(8 * (size - 3));
      EvenPower(256);
      EvenProduct(w, Pow2(8 * (size - 3)));
      EvenBelow(w * Pow2(8 * (size - 3)), Pow2(256));
    }
  }

  lemma {:induction false} EvenBelow(a: nat, m: nat)
    requires a < m && a % 2 == 0 && m % 2 == 0
    ensures a + 1 < m
  {
  }

  lemma {:induction false} EvenPower(n: nat)
    requires n > 0
    ensures Pow2(n) % 2 == 0
  {
  }

  lemma {:induction false} EvenProduct(w: nat, p: nat)
    requires p % 2 == 0
    ensures (w * p) % 2 == 0
  {
    var h := p / 2;
    assert w * p == 2 * (w * h);
  }

  // ---------------------------------------------------------------- work

  lemma {:induction false} ProofFormula(t: nat, m: nat)
    requires 0 < t && t + 1 < m
    ensures (m - 1 - t) / (t + 1) + 1 == m / (t + 1) < m
  {
    var d := t + 1;
    var q := (m - d) / d;
    DivMod(m - d, d);
    Distribute(q, 1, d);
    DivModUnique(m, d, q + 1, (m - d) % d);
    if m / d >= m { MulMono(m, m / d, d); MulMono(2, d, m); }
  }

  /** `GetBlockProof`: the expected number of hashes, floor(2^256 / (target + 1)); zero for a target
      that is zero, negative or too large. */
  method GetBlockProof(nBits: nat) returns (r: seq<nat>)
    requires nBits < BASE
    ensures |r| == WIDTH && Limbs(r)
    ensures var t := CompactValue(nBits);
            Value(r) == if SignBit(nBits) || t == 0 || t >= Pow2(256) then 0 else Pow2(256) / (t + 1)
  {
    hide Pow2, Value, CompactValue;
    var target, negative, overflow := SetCompact(nBits);
    ghost var t := CompactValue(nBits);
    if t < Pow2(256) { ModSmall(t, Pow2(256)); }
    SmallValue(0);
    SmallValue(1);
    var zero := CompareTo(target[..], SmallLimbs(0));
    if negative || overflow || zero == 0 {
      ZeroLimbs(target[..]);
      return SmallLimbs(0);
    }
    ZeroLimbs(target[..]);
    TargetNotFull(nBits);
    var inverse := Complement(target[..]);
    ComplementValue(target[..]);
    Add(target, SmallLimbs(1));
    ModSmall(t + 1, Pow2(256));
    var q := new nat[WIDTH];
    CopyInto(q, inverse);
    ValueBound(inverse);
    var _ := Divide(q, target[..]);
    ProofFormula(t, Pow2(256));
    Add(q, SmallLimbs(1));
    ModSmall(Pow2(256) / (t + 1), Pow2(256));
    r := q[..];
  }

  lemma {:induction false} ZeroLimbs(s: seq<nat>)
    requires |s| == WIDTH && Limbs(s)
    ensures s == SmallLimbs(0) <==> Value(s) == 0
  {
    hide Pow2, Value;
    SmallValue(0);
    if s != SmallLimbs(0) {
      var i :| 0 <= i < WIDTH && s[i] != 0;
      ValueSplit(s, i + 1);
      ValueNext(s, i);
      MulMono(1, s[i], Pow2(32 * i));
    }
  }
}
