/** Writing a 256-bit number in the compact form of a target. */
module ArithCompact {
  import opened Powers
  import opened ArithUint
  import opened ArithDivide

  /** The digits of `v` in a compact form of `size` bytes. */
  function Shifted(v: nat, size: nat): nat {
    if size <= 3 then v * Pow2(8 * (3 - size)) else Quotient(v, Pow2(8 * (size - 3)))
  }

  /** `c` is the compact form of `v`: the fewest bytes that leave the sign bit clear, and as many
      leading digits as fit. */
  ghost predicate IsCompact(c: nat, v: nat, negative: bool) {
    var size := Exponent(c);
    && c < BASE && size > 0 && v < Pow2(8 * size - 1) && (size > 1 ==> v >= Pow2(8 * size - 9))
    && Mantissa(c) == Shifted(v, size) && (SignBit(c) <==> negative)
  }

  // ---------------------------------------------------------------- what a compact form stands for

  /** Only digits below the leading ones are lost. */
  lemma {:induction false} CompactTruncates(c: nat, v: nat, negative: bool)
    requires IsCompact(c, v, negative)
    ensures CompactValue(c) == if Exponent(c) <= 3 then v else v - v % Pow2(8 * (Exponent(c) - 3))
  {
    hide Pow2;
    var size := Exponent(c);
    if size <= 3 {
      var p := Pow2(8 * (3 - size));
      DivModUnique(v * p, p, v, 0);
    } else {
      DivMod(v, Pow2(8 * (size - 3)));
    }
  }

  /** Nothing is lost exactly when some compact form stands for the number. */
  lemma {:induction false} CompactExact(c: nat, v: nat, negative: bool)
    requires IsCompact(c, v, negative)
    ensures CompactValue(c) == v <==> exists d :: CompactValue(d) == v
  {
    hide Pow2, CompactValue;
    if d :| CompactValue(d) == v && Exponent(c) > 3 {
      Divides(c, v, negative, d);
      CompactTruncates(c, v, negative);
    } else if Exponent(c) <= 3 {
      CompactTruncates(c, v, negative);
    }
  }

  lemma {:induction false} Divides(c: nat, v: nat, negative: bool, d: nat)
    requires IsCompact(c, v, negative) && Exponent(c) > 3 && CompactValue(d) == v
    ensures v % Pow2(8 * (Exponent(c) - 3)) == 0
  {
    hide Pow2, Shifted;
    var size, e, m := Exponent(c), Exponent(d), Mantissa(d);
    MantissaPower();
    AtLeast(23, 8 * size - 9);
    if e <= 3 {
      WordFits(m, Pow2(8 * (3 - e)));
      assert false;
    } else {
      var q := Pow2(8 * (e - 3));
      MulStrict(m, Pow2(23), q);
      Pow2Add(23, 8 * (e - 3));
      Pow2Monotone(8 * size - 9, 8 * e - 1);
      var g, h := Pow2(8 * (size - 3)), Pow2(8 * (e - size));
      Pow2Add(8 * (e - size), 8 * (size - 3));
      Assoc(m, h, g);
      DivModUnique(v, g, m * h, 0);
    }
  }

  lemma {:induction false} AtLeast(a: nat, b: nat)
    requires a <= b
    ensures Pow2(a) <= Pow2(b)
  {
    Pow2Monotone(b, a);
  }

  /** A number and a sign have one compact form. */
  lemma {:induction false} CompactUnique(c: nat, d: nat, v: nat, negative: bool)
    requires IsCompact(c, v, negative) && IsCompact(d, v, negative)
    ensures c == d
  {
    hide Pow2, Shifted;
    var s, t := Exponent(c), Exponent(d);
    if s < t { AtLeast(8 * s - 1, 8 * t - 9); } else if t < s { AtLeast(8 * t - 1, 8 * s - 9); }
    Fields(c);
    Fields(d);
  }

  lemma {:induction false} Fields(c: nat)
    ensures c == Mantissa(c) + 0x80_0000 * ((c / 0x80_0000) % 2) + 0x100_0000 * Exponent(c)
  {
  }

  // ---------------------------------------------------------------- computing it

  /** `GetLow64`. */
  function Low64(s: seq<nat>): nat
    requires |s| > 1
  {
    s[0] + s[1] * BASE
  }

  lemma {:induction false} LowOnly(s: seq<nat>)
    requires Limbs(s) && |s| > 1 && Value(s) < BASE
    ensures Low64(s) == Value(s)
  {
    hide Pow2, Value;
    BaseIsPow2();
    FirstPlace();
    EmptyValue(s);
    ValueNext(s, 0);
    ValueSplit(s, 1);
    if Value(s[1..]) > 0 { MulMono(1, Value(s[1..]), BASE); }
    var t := s[1..];
    EmptyValue(t);
    ValueNext(t, 0);
    ValueSplit(t, 1);
    assert t[0] == s[1];
  }

  /** The leading bytes: 24 bits, and the highest of them tells whether the length is full. */
  lemma {:induction false} Leading(v: nat, k: nat, n: nat)
    requires v > 0 && HasBits(v, k) && n == (k + 7) / 8
    ensures Shifted(v, n) < 0x100_0000 && (Shifted(v, n) >= 0x80_0000 <==> k == 8 * n)
  {
    hide Pow2;
    MantissaPower();
    Pow2Add(16, 8);
    if n <= 3 {
      var j := 8 * (3 - n);
      var p := Pow2(j);
      MulStrict(v, Pow2(k), p);
      Pow2Add(k, j);
      AtLeast(k + j, 24);
      MulMono(Pow2(k - 1), v, p);
      Pow2Add(k - 1, j);
      if k == 8 * n { assert k - 1 + j == 23; } else { AtLeast(k + j, 23); }
    } else {
      var j := 8 * (n - 3);
      var p := Pow2(j);
      DivMod(v, p);
      var q := v / p;
      AtLeast(k, 24 + j);
      Pow2Add(24, j);
      if q >= 0x100_0000 { MulMono(0x100_0000, q, p); }
      Pow2Add(23, j);
      assert k == 8 * n ==> k - 1 == 23 + j;
      if q >= 0x80_0000 {
        MulMono(0x80_0000, q, p);
        if k < 8 * n { AtLeast(k, 23 + j); }
      } else {
        MulMono(q + 1, 0x80_0000, p);
        Distribute(q, 1, p);
      }
    }
  }

  /** One byte more is one digit fewer. */
  lemma {:induction false} OneByteMore(v: nat, n: nat)
    ensures Shifted(v, n) / 256 == Shifted(v, n + 1)
  {
    hide Pow2;
    MantissaPower();
    if n < 3 {
      Pow2Add(8 * (3 - n - 1), 8);
      Assoc(v, Pow2(8 * (3 - n - 1)), 256);
      DivModUnique(v * Pow2(8 * (3 - n)), 256, v * Pow2(8 * (3 - n - 1)), 0);
    } else {
      var p := Pow2(8 * (n - 3));
      Pow2Add(8 * (n - 3), 8);
      DivMod(v, p);
      DivMod(v / p, 256);
      Nested(v, p, v / p, v % p, (v / p) / 256, (v / p) % 256);
      if n == 3 { FirstPlace(); }
    }
  }

  lemma {:induction false} Nested(v: nat, p: nat, q: nat, r: nat, s: nat, t: nat)
    requires p > 0 && v == q * p + r && r < p && q == s * 256 + t && t < 256
    ensures v / (p * 256) == s
  {
    Distribute(s * 256, t, p);
    Assoc(s, 256, p);
    MulMono(t + 1, 256, p);
    Distribute(t, 1, p);
    DivModUnique(v, p * 256, s, t * p + r);
  }

  /** The size found from the length in bits is the smallest possible. */
  lemma {:induction false} SizeFits(v: nat, k: nat, n: nat, size: nat)
    requires v > 0 && HasBits(v, k) && n == (k + 7) / 8 && size == if k == 8 * n then n + 1 else n
    ensures size > 0 && v < Pow2(8 * size - 1) && (size > 1 ==> v >= Pow2(8 * size - 9)) && Shifted(v, size) > 0
  {
    hide Pow2;
    AtLeast(k, 8 * size - 1);
    if size > 1 { AtLeast(8 * size - 9, k - 1); }
    if size <= 3 {
      MulMono(1, v, Pow2(8 * (3 - size)));
    } else {
      var p := Pow2(8 * (size - 3));
      AtLeast(8 * (size - 3), 8 * size - 9);
      DivMod(v, p);
      if v / p <= 0 { MulMono(v / p, 0, p); }
    }
  }

  /** `GetCompact`. Its two assertions cannot fail. */
  method GetCompact(pn: seq<nat>, fNegative: bool) returns (c: nat)
    requires |pn| == WIDTH && Limbs(pn)
    ensures Value(pn) == 0 ==> c == 0
    ensures Value(pn) > 0 ==> IsCompact(c, Value(pn), fNegative)
  {
    hide Pow2, Value, Shifted;
    var k := Bits(pn);
    ghost var v := Value(pn);
    var nSize, nCompact := (k + 7) / 8, 0;
    BitsZero(v, k);
    if v > 0 { Leading(v, k, nSize); }
    nCompact := LeadingDigits(pn, k, nSize);
    OneByteMore(v, nSize);
    if v > 0 { SizeFits(v, k, nSize, if k == 8 * nSize then nSize + 1 else nSize); }
    if (nCompact / 0x80_0000) % 2 == 1 {
      nCompact := nCompact / 256;
      nSize := nSize + 1;
    }
    assert nCompact < 0x80_0000 && nSize < 256;
    // The three fields do not overlap.
    c := nCompact + nSize * 0x100_0000;
    if fNegative && nCompact != 0 { c := c + 0x80_0000; }
    FieldsOf(nCompact, nSize, fNegative && nCompact != 0, c);
  }

  lemma {:induction false} FieldsOf(m: nat, size: nat, sign: bool, c: nat)
    requires m < 0x80_0000 && size < 256 && c == m + size * 0x100_0000 + if sign then 0x80_0000 else 0
    ensures c < BASE && Mantissa(c) == m && Exponent(c) == size && (SignBit(c) <==> sign)
  {
  }

  /** The first half: the number moved so that its leading three bytes are the low ones. */
  method LeadingDigits(pn: seq<nat>, k: nat, nSize: nat) returns (m: nat)
    requires |pn| == WIDTH && Limbs(pn) && HasBits(Value(pn), k) && nSize == (k + 7) / 8
    ensures m == Shifted(Value(pn), nSize) && (Value(pn) == 0 ==> m == 0)
  {
    hide Pow2, Value;
    ghost var v := Value(pn);
    BitsZero(v, k);
    if v > 0 { Leading(v, k, nSize); }
    if nSize <= 3 {
      if v > 0 { FitsLow(v, Pow2(8 * (3 - nSize))); }
      LowOnly(pn);
      m := (Low64(pn) * Pow2(8 * (3 - nSize))) % BASE;
      ModSmall(v * Pow2(8 * (3 - nSize)), BASE);
    } else {
      var bn := new nat[WIDTH];
      CopyInto(bn, pn);
      ShiftRight(bn, 8 * (nSize - 3));
      LowOnly(bn[..]);
      m := Low64(bn[..]) % BASE;
      ModSmall(Value(bn[..]), BASE);
    }
  }

  lemma {:induction false} FitsLow(v: nat, p: nat)
    requires p > 0 && v * p < 0x100_0000
    ensures v < BASE
  {
    MulMono(1, p, v);
  }
}
