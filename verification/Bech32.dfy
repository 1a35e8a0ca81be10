/** Bech32 and Bech32m: a cyclic checksum over 5-bit symbols. */
module Bech32 {
  import opened Options

  type Symbol = bv5

  datatype Encoding = BECH32 | BECH32M

  const CHECKSUM_SIZE: nat := 6
  const SEPARATOR: char := '1'

  /** A polynomial of degree at most five over GF(32), highest coefficient first: the six 5-bit groups
      of the 30-bit integer that the code passes around. Addition is bitwise. */
  datatype Poly = Poly(c0: Symbol, c1: Symbol, c2: Symbol, c3: Symbol, c4: Symbol, c5: Symbol) {
    function Xor(o: Poly): Poly { Poly(c0 ^ o.c0, c1 ^ o.c1, c2 ^ o.c2, c3 ^ o.c3, c4 ^ o.c4, c5 ^ o.c5) }
  }

  const ZERO: Poly := Poly(0, 0, 0, 0, 0, 0)
  const ONE: Poly := Poly(0, 0, 0, 0, 0, 1)

  // The multiples of x^6 mod g(x) by 1, 2, 4, 8 and 16.
  const GEN0: Poly := Poly(29, 22, 20, 21, 29, 18)  // 0x3b6a57b2
  const GEN1: Poly := Poly(19, 5, 1, 3, 19, 13)  // 0x26508e6d
  const GEN2: Poly := Poly(15, 10, 2, 6, 15, 26)  // 0x1ea119fa
  const GEN3: Poly := Poly(30, 20, 4, 12, 30, 29)  // 0x3d4233dd
  const GEN4: Poly := Poly(21, 1, 8, 24, 21, 19)  // 0x2a1462b3

  /** 1 for Bech32, 0x2bc830a3 for Bech32m. */
  function EncodingConstant(e: Encoding): Poly { if e == BECH32 then ONE else Poly(21, 28, 16, 12, 5, 3) }

  // ---------------------------------------------------------------- the checksum polynomial

  function Tap(c0: Symbol, m: Symbol, k: Poly): Poly { if c0 & m != 0 then k else ZERO }

  /** Multiply by x, add `v`, reduce modulo g(x). */
  function Step(c: Poly, v: Symbol): Poly {
    Poly(c.c1, c.c2, c.c3, c.c4, c.c5, v)
      .Xor(Tap(c.c0, 1, GEN0)).Xor(Tap(c.c0, 2, GEN1)).Xor(Tap(c.c0, 4, GEN2)).Xor(Tap(c.c0, 8, GEN3))
        .Xor(Tap(c.c0, 16, GEN4))
  }

  function Fold(c: Poly, v: seq<Symbol>): Poly
    decreases |v|
  {
    if v == [] then c else Fold(Step(c, v[0]), v[1..])
  }

  /** `PolyMod`, as a loop. */
  method PolyMod(v: seq<Symbol>) returns (c: Poly)
    ensures c == Fold(ONE, v)
  {
    hide Step;
    c := ONE;
    assert v[0..] == v;
    for i := 0 to |v|
      invariant Fold(c, v[i..]) == Fold(ONE, v)
    {
      assert v[i..][0] == v[i] && v[i..][1..] == v[i + 1..];
      c := PolyModStep(c, v[i]);
    }
    assert v[|v|..] == [];
  }

  method PolyModStep(before: Poly, v: Symbol) returns (c: Poly)
    ensures c == Step(before, v)
  {
    var c0 := before.c0;
    c := Poly(before.c1, before.c2, before.c3, before.c4, before.c5, v);
    c := AddIf(c, c0, 1, GEN0);
    c := AddIf(c, c0, 2, GEN1);
    c := AddIf(c, c0, 4, GEN2);
    c := AddIf(c, c0, 8, GEN3);
    c := AddIf(c, c0, 16, GEN4);
  }

  method AddIf(before: Poly, c0: Symbol, m: Symbol, k: Poly) returns (c: Poly)
    ensures c == before.Xor(Tap(c0, m, k))
  {
    c := before;
    XorZero(c);
    if c0 & m != 0 { c := c.Xor(k); }
  }

  lemma {:induction false} XorZero(a: Poly)
    ensures a.Xor(ZERO) == a && ZERO.Xor(a) == a && a.Xor(a) == ZERO
  {
  }

  lemma {:induction false} XorPairs(a: Poly, b: Poly, c: Poly, d: Poly)
    ensures a.Xor(b).Xor(c.Xor(d)) == a.Xor(c).Xor(b.Xor(d))
  {
    SymbolPairs(a.c0, b.c0, c.c0, d.c0);
    SymbolPairs(a.c1, b.c1, c.c1, d.c1);
    SymbolPairs(a.c2, b.c2, c.c2, d.c2);
    SymbolPairs(a.c3, b.c3, c.c3, d.c3);
    SymbolPairs(a.c4, b.c4, c.c4, d.c4);
    SymbolPairs(a.c5, b.c5, c.c5, d.c5);
  }

  lemma {:induction false} SymbolPairs(a: Symbol, b: Symbol, c: Symbol, d: Symbol)
    ensures (a ^ b) ^ (c ^ d) == (a ^ c) ^ (b ^ d)
  {
  }

  lemma {:induction false} TapLinear(a: Symbol, b: Symbol, m: Symbol, k: Poly)
    requires m == 1 || m == 2 || m == 4 || m == 8 || m == 16
    ensures Tap(a ^ b, m, k) == Tap(a, m, k).Xor(Tap(b, m, k))
  {
    XorZero(k);
    BitLinear(a, b, m);
  }

  lemma {:induction false} BitLinear(a: Symbol, b: Symbol, m: Symbol)
    requires m == 1 || m == 2 || m == 4 || m == 8 || m == 16
    ensures (a ^ b) & m != 0 <==> (a & m != 0) != (b & m != 0)
  {
  }

  /** A step is linear. */
  lemma {:induction false} StepLinear(c: Poly, d: Poly, v: Symbol, w: Symbol)
    ensures Step(c.Xor(d), v ^ w) == Step(c, v).Xor(Step(d, w))
  {
    hide Tap, Poly.Xor;
    ShiftLinear(c, d, v, w);
    var a, b := c.c0, d.c0;
    var x, y := Poly(c.c1, c.c2, c.c3, c.c4, c.c5, v), Poly(d.c1, d.c2, d.c3, d.c4, d.c5, w);
    TapOn(x, y, a, b, 1, GEN0);
    x, y := x.Xor(Tap(a, 1, GEN0)), y.Xor(Tap(b, 1, GEN0));
    TapOn(x, y, a, b, 2, GEN1);
    x, y := x.Xor(Tap(a, 2, GEN1)), y.Xor(Tap(b, 2, GEN1));
    TapOn(x, y, a, b, 4, GEN2);
    x, y := x.Xor(Tap(a, 4, GEN2)), y.Xor(Tap(b, 4, GEN2));
    TapOn(x, y, a, b, 8, GEN3);
    x, y := x.Xor(Tap(a, 8, GEN3)), y.Xor(Tap(b, 8, GEN3));
    TapOn(x, y, a, b, 16, GEN4);
  }

  lemma {:induction false} ShiftLinear(c: Poly, d: Poly, v: Symbol, w: Symbol)
    ensures var s := c.Xor(d);
            Poly(s.c1, s.c2, s.c3, s.c4, s.c5, v ^ w) ==
              Poly(c.c1, c.c2, c.c3, c.c4, c.c5, v).Xor(Poly(d.c1, d.c2, d.c3, d.c4, d.c5, w))
    ensures c.Xor(d).c0 == c.c0 ^ d.c0
  {
  }

  lemma {:induction false} TapOn(x: Poly, y: Poly, a: Symbol, b: Symbol, m: Symbol, k: Poly)
    requires m == 1 || m == 2 || m == 4 || m == 8 || m == 16
    ensures x.Xor(y).Xor(Tap(a ^ b, m, k)) == x.Xor(Tap(a, m, k)).Xor(y.Xor(Tap(b, m, k)))
  {
    hide Tap, Poly.Xor;
    TapLinear(a, b, m, k);
    XorPairs(x, y, Tap(a, m, k), Tap(b, m, k));
  }

  /** Only zero steps to zero: the constant term of g(x) is not zero. */
  lemma {:induction false} StepInvertible(c: Poly)
    ensures Step(c, 0) == ZERO <==> c == ZERO
  {
    if c.c0 == 0 { ShiftOnly(c, 0); } else { FeedbackNonZero(c); }
  }

  lemma {:induction false} ShiftOnly(c: Poly, v: Symbol)
    requires c.c0 == 0
    ensures Step(c, v) == Poly(c.c1, c.c2, c.c3, c.c4, c.c5, v)
  {
    hide Tap, Poly.Xor;
    NoTap(1, GEN0); NoTap(2, GEN1); NoTap(4, GEN2); NoTap(8, GEN3); NoTap(16, GEN4);
    XorZero(Poly(c.c1, c.c2, c.c3, c.c4, c.c5, v));
  }

  lemma {:induction false} NoTap(m: Symbol, k: Poly)
    ensures Tap(0, m, k) == ZERO
  {
    assert 0 & m == 0;
  }

  /** The last coefficient after a step with nothing added. */
  function LastTap(c0: Symbol, m: Symbol, k: Symbol): Symbol { if c0 & m != 0 then k else 0 }

  lemma {:induction false} FeedbackNonZero(c: Poly)
    requires c.c0 != 0
    ensures Step(c, 0).c5 != 0
  {
    LastOf(c.c0, 1, GEN0); LastOf(c.c0, 2, GEN1); LastOf(c.c0, 4, GEN2); LastOf(c.c0, 8, GEN3); LastOf(c.c0, 16, GEN4);
    hide Tap;
    LastNonZero(c.c0);
  }

  lemma {:induction false} LastOf(c0: Symbol, m: Symbol, k: Poly)
    ensures Tap(c0, m, k).c5 == LastTap(c0, m, k.c5)
  {
  }

  lemma {:induction false} LastNonZero(c0: Symbol)
    requires c0 != 0
    ensures 0 ^ LastTap(c0, 1, 18) ^ LastTap(c0, 2, 13) ^ LastTap(c0, 4, 26) ^ LastTap(c0, 8, 29)
      ^ LastTap(c0, 16, 19) != 0
  {
  }

  // ---------------------------------------------------------------- folding over sequences

  function Zeros(n: nat): (s: seq<Symbol>)
    ensures |s| == n && forall i :: 0 <= i < n ==> s[i] == 0
  {
    seq(n, _ => 0)
  }

  function XorSeq(a: seq<Symbol>, b: seq<Symbol>): (s: seq<Symbol>)
    requires |a| == |b|
    ensures |s| == |a| && forall i :: 0 <= i < |s| ==> s[i] == a[i] ^ b[i]
  {
    seq(|a|, i requires 0 <= i < |a| => a[i] ^ b[i])
  }

  lemma {:induction false} FoldConcat(c: Poly, a: seq<Symbol>, b: seq<Symbol>)
    ensures Fold(c, a + b) == Fold(Fold(c, a), b)
    decreases |a|
  {
    hide Step;
    if a == [] {
      assert a + b == b;
    } else {
      assert (a + b)[0] == a[0] && (a + b)[1..] == a[1..] + b;
      FoldConcat(Step(c, a[0]), a[1..], b);
    }
  }

  lemma {:induction false} FoldLinear(c: Poly, d: Poly, v: seq<Symbol>, w: seq<Symbol>)
    requires |v| == |w|
    ensures Fold(c.Xor(d), XorSeq(v, w)) == Fold(c, v).Xor(Fold(d, w))
    decreases |v|
  {
    hide Step, Poly.Xor;
    if v != [] {
      StepLinear(c, d, v[0], w[0]);
      FoldLinear(Step(c, v[0]), Step(d, w[0]), v[1..], w[1..]);
      assert XorSeq(v, w)[1..] == XorSeq(v[1..], w[1..]);
    }
  }

  /** Zeros neither create nor remove an error. */
  lemma {:induction false} FoldZeros(c: Poly, n: nat)
    ensures Fold(c, Zeros(n)) == ZERO <==> c == ZERO
    decreases n
  {
    hide Step;
    if n > 0 {
      assert Zeros(n)[1..] == Zeros(n - 1);
      StepInvertible(c);
      FoldZeros(Step(c, 0), n - 1);
    }
  }

  /** Six symbols fill the six coefficients. */
  lemma {:induction false} FoldSix(k: seq<Symbol>)
    requires |k| == 6
    ensures Fold(ZERO, k) == Poly(k[0], k[1], k[2], k[3], k[4], k[5])
  {
    hide Step;
    ShiftOnly(ZERO, k[0]);
    var p1 := Poly(0, 0, 0, 0, 0, k[0]);
    ShiftOnly(p1, k[1]);
    var p2 := Poly(0, 0, 0, 0, k[0], k[1]);
    ShiftOnly(p2, k[2]);
    var p3 := Poly(0, 0, 0, k[0], k[1], k[2]);
    ShiftOnly(p3, k[3]);
    var p4 := Poly(0, 0, k[0], k[1], k[2], k[3]);
    ShiftOnly(p4, k[4]);
    var p5 := Poly(0, k[0], k[1], k[2], k[3], k[4]);
    ShiftOnly(p5, k[5]);
    FoldNext(ZERO, k, 0); FoldNext(p1, k, 1); FoldNext(p2, k, 2); FoldNext(p3, k, 3); FoldNext(p4, k, 4);
    FoldNext(p5, k, 5);
    assert k[0..] == k && k[6..] == [];
  }

  lemma {:induction false} FoldNext(c: Poly, k: seq<Symbol>, i: nat)
    requires i < |k|
    ensures Fold(c, k[i..]) == Fold(Step(c, k[i]), k[i + 1..])
  {
    hide Step;
    assert k[i..][0] == k[i] && k[i..][1..] == k[i + 1..];
  }

  // ---------------------------------------------------------------- creating and verifying

  /** Outside a window of six places there are only zeros: what counts is the window. */
  lemma {:induction false} WindowOnly(p: seq<Symbol>, at: nat)
    requires at + 6 <= |p| && forall i :: 0 <= i < |p| && !(at <= i < at + 6) ==> p[i] == 0
    ensures Fold(ZERO, p) == ZERO <==> forall i :: at <= i < at + 6 ==> p[i] == 0
  {
    hide Step, Fold;
    var window := p[at..at + 6];
    assert p == Zeros(at) + window + Zeros(|p| - at - 6);
    FoldConcat(ZERO, Zeros(at) + window, Zeros(|p| - at - 6));
    FoldConcat(ZERO, Zeros(at), window);
    FoldZeros(ZERO, at);
    FoldZeros(Fold(ZERO, window), |p| - at - 6);
    WindowZero(p, at);
  }

  lemma {:induction false} WindowZero(p: seq<Symbol>, at: nat)
    requires at + 6 <= |p|
    ensures Fold(ZERO, p[at..at + 6]) == ZERO <==> forall i :: at <= i < at + 6 ==> p[i] == 0
  {
    hide Step, Fold;
    var k := p[at..at + 6];
    FoldSix(k);
    assert k[0] == p[at] && k[1] == p[at + 1] && k[2] == p[at + 2] && k[3] == p[at + 3] && k[4] == p[at + 4]
      && k[5] == p[at + 5];
  }

  /** An error that is not zero but confined to six consecutive positions changes the remainder. */
  lemma {:induction false} BurstDetected(e: seq<Symbol>, a: nat)
    requires (exists i :: 0 <= i < |e| && e[i] != 0) && forall i :: 0 <= i < |e| && e[i] != 0 ==> a <= i < a + 6
    ensures Fold(ZERO, e) != ZERO
  {
    hide Step, Fold;
    // Six zeros in front make room for a full window wherever the error is.
    var p := Zeros(6) + e;
    FoldConcat(ZERO, Zeros(6), e);
    FoldZeros(ZERO, 6);
    var at := if a + 12 <= |p| then a + 6 else |p| - 6;
    forall i | 0 <= i < |p| && !(at <= i < at + 6) ensures p[i] == 0 { assert i >= 6 ==> p[i] == e[i - 6]; }
    WindowOnly(p, at);
    var i :| 0 <= i < |e| && e[i] != 0;
    assert p[i + 6] != 0;
  }

  /** The symbols a human-readable part contributes. */
  function HrpHigh(c: char): Symbol { ((c as int / 32) % 32) as bv5 }

  function HrpLow(c: char): Symbol { (c as int % 32) as bv5 }

  function ExpandHrp(hrp: string): seq<Symbol> {
    seq(|hrp|, i requires 0 <= i < |hrp| => HrpHigh(hrp[i])) + [0]
      + seq(|hrp|, i requires 0 <= i < |hrp| => HrpLow(hrp[i]))
  }

  /** `VerifyChecksum`. */
  function VerifyChecksum(hrp: string, values: seq<Symbol>): Option<Encoding> {
    var check := Fold(ONE, ExpandHrp(hrp) + values);
    if check == EncodingConstant(BECH32) then Some(BECH32)
    else if check == EncodingConstant(BECH32M) then Some(BECH32M) else None
  }

  lemma {:induction false} VerifyMeans(hrp: string, values: seq<Symbol>, e: Encoding)
    ensures VerifyChecksum(hrp, values) == Some(e) <==> Fold(ONE, ExpandHrp(hrp) + values) == EncodingConstant(e)
  {
    hide Fold;
  }

  lemma {:induction false} OneOfTwo(hrp: string, values: seq<Symbol>)
    ensures var r := VerifyChecksum(hrp, values); r == None || r == Some(BECH32) || r == Some(BECH32M)
  {
    hide Fold, ExpandHrp;
  }

  /** `CreateChecksum`. */
  function CreateChecksum(e: Encoding, hrp: string, values: seq<Symbol>): (r: seq<Symbol>)
    ensures |r| == CHECKSUM_SIZE
  {
    var m := Fold(ONE, ExpandHrp(hrp) + values + Zeros(6)).Xor(EncodingConstant(e));
    [m.c0, m.c1, m.c2, m.c3, m.c4, m.c5]
  }

  /** A checksum verifies, as the encoding it was made for. */
  lemma {:induction false} ChecksumVerifies(e: Encoding, hrp: string, values: seq<Symbol>)
    ensures VerifyChecksum(hrp, values + CreateChecksum(e, hrp, values)) == Some(e)
  {
    hide Step, Fold, Poly.Xor, ExpandHrp, EncodingConstant, VerifyChecksum;
    var enc, k := ExpandHrp(hrp) + values, CreateChecksum(e, hrp, values);
    var m := Fold(ONE, enc + Zeros(6));
    FoldLinear(ONE, ZERO, enc + Zeros(6), Zeros(|enc|) + k);
    XorZero(ONE);
    XorSymbols(enc, k);
    FoldConcat(ZERO, Zeros(|enc|), k);
    FoldZeros(ZERO, |enc|);
    FoldSix(k);
    XorCancel(m, EncodingConstant(e));
    assert ExpandHrp(hrp) + (values + k) == enc + k;
    VerifyMeans(hrp, values + k, e);
  }

  lemma {:induction false} XorSymbols(enc: seq<Symbol>, k: seq<Symbol>)
    requires |k| == 6
    ensures XorSeq(enc + Zeros(6), Zeros(|enc|) + k) == enc + k
  {
    var l := XorSeq(enc + Zeros(6), Zeros(|enc|) + k);
    forall i | 0 <= i < |l| ensures l[i] == (enc + k)[i] {
      if i < |enc| { SymbolZero(enc[i]); } else { SymbolZero(k[i - |enc|]); }
    }
  }

  lemma {:induction false} SymbolZero(x: Symbol)
    ensures x ^ 0 == x && 0 ^ x == x && x ^ x == 0
  {
  }

  lemma {:induction false} XorCancel(m: Poly, c: Poly)
    ensures m.Xor(m.Xor(c)) == c
  {
    SymbolCancel(m.c0, c.c0); SymbolCancel(m.c1, c.c1); SymbolCancel(m.c2, c.c2);
    SymbolCancel(m.c3, c.c3); SymbolCancel(m.c4, c.c4); SymbolCancel(m.c5, c.c5);
  }

  lemma {:induction false} SymbolCancel(x: Symbol, y: Symbol)
    ensures x ^ (x ^ y) == y && (x ^ y == 0 <==> x == y)
  {
  }

  /** Altering symbols inside a window of six consecutive positions never verifies as before. */
  lemma {:induction false} AlteredRejected(hrp: string, values: seq<Symbol>, altered: seq<Symbol>, a: nat, e: Encoding)
    requires VerifyChecksum(hrp, values) == Some(e) && |altered| == |values| && altered != values
    requires forall i :: 0 <= i < |values| && altered[i] != values[i] ==> a <= i < a + 6
    ensures VerifyChecksum(hrp, altered) != Some(e)
  {
    hide Step, Fold, Poly.Xor, ExpandHrp, EncodingConstant, VerifyChecksum;
    var h := ExpandHrp(hrp);
    var v, w := h + values, h + altered;
    var d := XorSeq(v, w);
    forall i | 0 <= i < |d| ensures d[i] == 0 <==> v[i] == w[i] { SymbolCancel(v[i], w[i]); }
    var j :| 0 <= j < |values| && altered[j] != values[j];
    assert d[|h| + j] != 0;
    forall i | 0 <= i < |d| && d[i] != 0
      ensures |h| + a <= i < |h| + a + 6
    {
      assert i >= |h| && altered[i - |h|] != values[i - |h|];
    }
    BurstDetected(d, |h| + a);
    FoldLinear(ONE, ONE, v, w);
    XorZero(ONE);
    XorZero(Fold(ONE, v));
    VerifyMeans(hrp, values, e);
    VerifyMeans(hrp, altered, e);
  }

  // ---------------------------------------------------------------- characters

  function CharsetChar(d: Symbol): char {
    if d == 0 then 'q' else if d == 1 then 'p' else if d == 2 then 'z' else if d == 3 then 'r'
    else if d == 4 then 'y' else if d == 5 then '9' else if d == 6 then 'x' else if d == 7 then '8'
    else if d == 8 then 'g' else if d == 9 then 'f' else if d == 10 then '2' else if d == 11 then 't'
    else if d == 12 then 'v' else if d == 13 then 'd' else if d == 14 then 'w' else if d == 15 then '0'
    else if d == 16 then 's' else if d == 17 then '3' else if d == 18 then 'j' else if d == 19 then 'n'
    else if d == 20 then '5' else if d == 21 then '4' else if d == 22 then 'k' else if d == 23 then 'h'
    else if d == 24 then 'c' else if d == 25 then 'e' else if d == 26 then '6' else if d == 27 then 'm'
    else if d == 28 then 'u' else if d == 29 then 'a' else if d == 30 then '7' else 'l'
  }

  function CharsetRevLower(c: char): Option<Symbol> {
    if c == 'q' then Some(0) else if c == 'p' then Some(1) else if c == 'z' then Some(2) else if c == 'r' then Some(3)
    else if c == 'y' then Some(4)
    else if c == '9' then Some(5) else if c == 'x' then Some(6) else if c == '8' then Some(7)
    else if c == 'g' then Some(8)
    else if c == 'f' then Some(9) else if c == '2' then Some(10) else if c == 't' then Some(11)
    else if c == 'v' then Some(12)
    else if c == 'd' then Some(13) else if c == 'w' then Some(14) else if c == '0' then Some(15)
    else if c == 's' then Some(16)
    else if c == '3' then Some(17) else if c == 'j' then Some(18) else if c == 'n' then Some(19)
    else if c == '5' then Some(20)
    else if c == '4' then Some(21) else if c == 'k' then Some(22) else if c == 'h' then Some(23)
    else if c == 'c' then Some(24)
    else if c == 'e' then Some(25) else if c == '6' then Some(26) else if c == 'm' then Some(27)
    else if c == 'u' then Some(28)
    else if c == 'a' then Some(29) else if c == '7' then Some(30) else if c == 'l' then Some(31)
    else None
  }

  lemma {:induction false} CharsetInverse(d: Symbol)
    ensures CharsetRevLower(CharsetChar(d)) == Some(d)
  {
  }

  predicate IsLower(c: char) { 'a' <= c <= 'z' }

  predicate IsUpper(c: char) { 'A' <= c <= 'Z' }

  function LowerCase(c: char): char { if IsUpper(c) then (c as int - 'A' as int + 'a' as int) as char else c }

  /** `CHARSET_REV`, which has entries for both cases. */
  function CharsetRev(c: char): Option<Symbol> { CharsetRevLower(LowerCase(c)) }

  lemma {:induction false} CharsetPlain(d: Symbol)
    ensures var c := CharsetChar(d); !IsUpper(c) && c != SEPARATOR && 33 <= c as int <= 126
  {
  }

  function Chars(v: seq<Symbol>): (s: string)
    ensures |s| == |v| && forall i :: 0 <= i < |s| ==> s[i] == CharsetChar(v[i])
  {
    seq(|v|, i requires 0 <= i < |v| => CharsetChar(v[i]))
  }

  function Lowered(s: string): (r: string)
    ensures |r| == |s| && forall i :: 0 <= i < |s| ==> r[i] == LowerCase(s[i])
  {
    seq(|s|, i requires 0 <= i < |s| => LowerCase(s[i]))
  }

  /** Printable characters only, and not both cases. */
  ghost predicate CharactersOk(s: string) {
    && (forall i :: 0 <= i < |s| ==> 33 <= s[i] as int <= 126)
    && !((exists i :: 0 <= i < |s| && IsLower(s[i])) && (exists i :: 0 <= i < |s| && IsUpper(s[i])))
  }

  /** `CheckCharacters`: whether the list of bad positions stays empty. */
  method CheckCharacters(s: string) returns (ok: bool)
    ensures ok <==> CharactersOk(s)
  {
    var lower, upper := false, false;
    ok := true;
    for i := 0 to |s|
      invariant ok ==> forall k :: 0 <= k < i ==> 33 <= s[k] as int <= 126
      invariant ok ==>
        (lower <==> exists k :: 0 <= k < i && IsLower(s[k]))
          && (upper <==> exists k :: 0 <= k < i && IsUpper(s[k])) && !(lower && upper)
      invariant lower ==> exists k :: 0 <= k < i && IsLower(s[k])
      invariant upper ==> exists k :: 0 <= k < i && IsUpper(s[k])
      invariant !ok ==> !CharactersOk(s)
    {
      var c := s[i];
      if IsLower(c) {
        if upper { ok := false; } else { lower := true; }
      } else if IsUpper(c) {
        if lower { ok := false; } else { upper := true; }
      } else if c as int < 33 || c as int > 126 {
        ok := false;
      }
    }
  }

  /** The position of the last separator, -1 if there is none. */
  function LastSeparator(s: string): (p: int)
    ensures -1 <= p < |s| && (p >= 0 ==> s[p] == SEPARATOR) && forall i :: p < i < |s| ==> s[i] != SEPARATOR
  {
    if s == [] then -1 else if s[|s| - 1] == SEPARATOR then |s| - 1 else LastSeparator(s[..|s| - 1])
  }

  ghost predicate InCharset(s: string) { forall i :: 0 <= i < |s| ==> CharsetRev(s[i]).Some? }

  ghost function Symbols(s: string): (v: seq<Symbol>)
    requires InCharset(s)
    ensures |v| == |s| && forall i :: 0 <= i < |s| ==> v[i] == CharsetRev(s[i]).value
  {
    seq(|s|, i requires 0 <= i < |s| => CharsetRev(s[i]).value)
  }

  datatype Decoded = Decoded(encoding: Encoding, hrp: string, data: seq<Symbol>)

  // ---------------------------------------------------------------- encoding and decoding

  /** The string form; the human-readable part must not have upper-case letters. */
  function Encode(e: Encoding, hrp: string, values: seq<Symbol>): string {
    hrp + [SEPARATOR] + Chars(values + CreateChecksum(e, hrp, values))
  }

  ghost function Decode(s: string, limit: nat): Option<Decoded> {
    var pos := LastSeparator(s);
    if !CharactersOk(s) || |s| > limit || pos <= 0 || pos + CHECKSUM_SIZE >= |s| || !InCharset(s[pos + 1..]) then None
    else
      var hrp, v := Lowered(s[..pos]), Symbols(s[pos + 1..]);
      match VerifyChecksum(hrp, v)
      case None => None
      case Some(e) => Some(Decoded(e, hrp, v[..|v| - CHECKSUM_SIZE]))
  }

  lemma {:induction false} SymbolsBack(v: seq<Symbol>)
    ensures InCharset(Chars(v)) && Symbols(Chars(v)) == v
    ensures forall i :: 0 <= i < |v| ==>
      !IsUpper(Chars(v)[i]) && Chars(v)[i] != SEPARATOR && 33 <= Chars(v)[i] as int <= 126
  {
    hide CharsetChar, CharsetRevLower;
    forall i | 0 <= i < |v|
      ensures CharsetRev(Chars(v)[i]) == Some(v[i])
      ensures !IsUpper(Chars(v)[i]) && Chars(v)[i] != SEPARATOR && 33 <= Chars(v)[i] as int <= 126
    {
      CharsetInverse(v[i]);
      CharsetPlain(v[i]);
    }
  }

  /** Decoding an encoding gives back what was encoded. */
  lemma {:induction false} DecodeEncode(e: Encoding, hrp: string, values: seq<Symbol>, limit: nat)
    requires hrp != [] && forall i :: 0 <= i < |hrp| ==> 33 <= hrp[i] as int <= 126 && !IsUpper(hrp[i])
    requires |hrp| + 1 + |values| + CHECKSUM_SIZE <= limit
    ensures Decode(Encode(e, hrp, values), limit) == Some(Decoded(e, hrp, values))
  {
    hide VerifyChecksum, CreateChecksum, CharsetChar, CharsetRev, InCharset, CharactersOk, Lowered, Chars, Symbols,
         LastSeparator;
    var v := values + CreateChecksum(e, hrp, values);
    var s := hrp + [SEPARATOR] + Chars(v);
    SymbolsBack(v);
    EncodedCharacters(hrp, v);
    SeparatorAt(s, |hrp|);
    assert s[..|hrp|] == hrp && s[|hrp| + 1..] == Chars(v);
    ChecksumVerifies(e, hrp, values);
    assert v[..|v| - CHECKSUM_SIZE] == values;
  }

  lemma {:induction false} EncodedCharacters(hrp: string, v: seq<Symbol>)
    requires forall i :: 0 <= i < |hrp| ==> 33 <= hrp[i] as int <= 126 && !IsUpper(hrp[i])
    requires forall i :: 0 <= i < |v| ==>
      !IsUpper(Chars(v)[i]) && Chars(v)[i] != SEPARATOR && 33 <= Chars(v)[i] as int <= 126
    ensures var s := hrp + [SEPARATOR] + Chars(v); CharactersOk(s) && forall i :: |hrp| < i < |s| ==> s[i] != SEPARATOR
    ensures Lowered(hrp) == hrp
  {
    hide CharsetChar, Chars;
    var s := hrp + [SEPARATOR] + Chars(v);
    forall i | 0 <= i < |s| ensures 33 <= s[i] as int <= 126 && !IsUpper(s[i]) && (i > |hrp| ==> s[i] != SEPARATOR) {
      assert i > |hrp| ==> s[i] == Chars(v)[i - |hrp| - 1];
    }
  }

  lemma {:induction false} SeparatorAt(s: string, p: nat)
    requires p < |s| && s[p] == SEPARATOR && forall i :: p < i < |s| ==> s[i] != SEPARATOR
    ensures LastSeparator(s) == p
  {
  }

  lemma {:induction false} CharsetBack(c: char)
    requires CharsetRevLower(c).Some?
    ensures CharsetChar(CharsetRevLower(c).value) == c
  {
    if c <= '9' {
    } else if c <= 'h' {
    } else if c <= 'r' {
    } else {
    }
  }

  lemma {:induction false} CharsBack(s: string)
    requires InCharset(s)
    ensures Chars(Symbols(s)) == Lowered(s)
  {
    hide CharsetChar, CharsetRevLower;
    forall i | 0 <= i < |s| ensures CharsetChar(Symbols(s)[i]) == LowerCase(s[i]) { CharsetBack(LowerCase(s[i])); }
  }

  /** The checksum that verifies is the one that is made. */
  lemma {:induction false} ChecksumUnique(e: Encoding, hrp: string, v: seq<Symbol>)
    requires VerifyChecksum(hrp, v) == Some(e) && |v| >= CHECKSUM_SIZE
    ensures var data := v[..|v| - CHECKSUM_SIZE]; v == data + CreateChecksum(e, hrp, data)
  {
    hide VerifyChecksum, CreateChecksum;
    var data := v[..|v| - CHECKSUM_SIZE];
    var w := data + CreateChecksum(e, hrp, data);
    ChecksumVerifies(e, hrp, data);
    if v != w { AlteredRejected(hrp, w, v, |data|, e); }
  }

  /** A string that decodes is, but for case, the encoding of what it decodes to. */
  lemma {:induction false} EncodeDecode(s: string, limit: nat)
    requires Decode(s, limit).Some?
    ensures var d := Decode(s, limit).value; Encode(d.encoding, d.hrp, d.data) == Lowered(s)
  {
    hide VerifyChecksum, CreateChecksum, CharsetChar, CharsetRev, InCharset, CharactersOk, LastSeparator, LowerCase,
         Lowered, Chars, Symbols;
    var d, pos := Decode(s, limit).value, LastSeparator(s);
    var tail := s[pos + 1..];
    var v := Symbols(tail);
    ChecksumUnique(d.encoding, d.hrp, v);
    CharsBack(tail);
    LoweredParts(s, pos);
  }

  lemma {:induction false} LoweredParts(s: string, pos: nat)
    requires pos < |s| && s[pos] == SEPARATOR
    ensures Lowered(s) == Lowered(s[..pos]) + [SEPARATOR] + Lowered(s[pos + 1..])
  {
  }

  method DecodeString(s: string, limit: nat) returns (r: Option<Decoded>)
    ensures r == Decode(s, limit)
  {
    hide VerifyChecksum, CharsetRev, CharactersOk, Fold;
    var ok := CheckCharacters(s);
    if !ok { return None; }
    var pos := LastSeparator(s);
    if |s| > limit || pos <= 0 || pos + CHECKSUM_SIZE >= |s| { return None; }
    var values: seq<Symbol> := [];
    var tail := s[pos + 1..];
    for i := 0 to |tail|
      invariant |values| == i && forall k :: 0 <= k < i ==> CharsetRev(tail[k]) == Some(values[k])
    {
      var rev := CharsetRev(tail[i]);
      if rev.None? { return None; }
      values := values + [rev.value];
    }
    assert values == Symbols(tail);
    var hrp := Lowered(s[..pos]);
    var c := PolyMod(ExpandHrp(hrp) + values);
    VerifyMeans(hrp, values, BECH32);
    VerifyMeans(hrp, values, BECH32M);
    var data := values[..|values| - CHECKSUM_SIZE];
    OneOfTwo(hrp, values);
    r := if c == EncodingConstant(BECH32) then Some(Decoded(BECH32, hrp, data))
         else if c == EncodingConstant(BECH32M) then Some(Decoded(BECH32M, hrp, data)) else None;
  }
}
