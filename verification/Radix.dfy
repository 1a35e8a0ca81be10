/** Numbers written in a base, most significant digit first, and changing the base. */
module Radix {
  import opened Powers

  function Pow(b: nat, n: nat): nat { if n == 0 then 1 else b * Pow(b, n - 1) }

  /** The number written by `s` in base `b`. */
  function Num(s: seq<nat>, b: nat): nat {
    if s == [] then 0 else Num(s[..|s| - 1], b) * b + s[|s| - 1]
  }

  /** The digits of `v` in base `b`, without leading zeros. */
  function Digits(v: nat, b: nat): (s: seq<nat>)
    requires b > 1
    ensures forall i :: 0 <= i < |s| ==> s[i] < b
  {
    if v == 0 then [] else Digits(Quotient(v, b), b) + [v % b]
  }

  ghost predicate InBase(s: seq<nat>, b: nat) { forall i :: 0 <= i < |s| ==> s[i] < b }

  /** Digits without leading zeros. */
  ghost predicate Canonical(s: seq<nat>, b: nat) { InBase(s, b) && (s != [] ==> s[0] != 0) }

  // ---------------------------------------------------------------- powers

  lemma {:induction false} PowAdd(b: nat, m: nat, n: nat)
    ensures Pow(b, m + n) == Pow(b, m) * Pow(b, n)
  {
    if m > 0 {
      PowAdd(b, m - 1, n);
      Assoc(b, Pow(b, m - 1), Pow(b, n));
      assert Pow(b, m + n) == b * Pow(b, m - 1 + n);
    } else {
      assert Pow(b, 0) == 1;
    }
  }

  lemma {:induction false} PowPositive(b: nat, n: nat)
    requires b > 0
    ensures Pow(b, n) > 0
  {
    if n > 0 { PowPositive(b, n - 1); MulStrict(0, b, Pow(b, n - 1)); }
  }

  lemma {:induction false} PowGrows(b: nat, m: nat, n: nat)
    requires b > 0 && m <= n
    ensures Pow(b, m) <= Pow(b, n)
  {
    if m < n {
      PowGrows(b, m, n - 1);
      MulMono(1, b, Pow(b, n - 1));
    }
  }

  // ---------------------------------------------------------------- numbers and digits

  lemma {:induction false} NumBound(s: seq<nat>, b: nat)
    requires InBase(s, b) && b > 0
    ensures Num(s, b) < Pow(b, |s|)
  {
    if s != [] {
      var n := |s| - 1;
      NumBound(s[..n], b);
      MulMono(Num(s[..n], b) + 1, Pow(b, n), b);
      assert (Num(s[..n], b) + 1) * b == Num(s[..n], b) * b + b;
      assert Pow(b, n) * b == b * Pow(b, n);
    }
  }

  /** The first digit counts most. */
  lemma {:induction false} NumHead(s: seq<nat>, b: nat)
    requires s != []
    ensures Num(s, b) == s[0] * Pow(b, |s| - 1) + Num(s[1..], b)
  {
    hide Pow;
    var n := |s| - 1;
    if n == 0 {
      PowZero(b);
      assert s[..0] == [] && s[1..] == [];
    } else {
      NumHead(s[..n], b);
      assert s[..n][1..] == s[1..][..n - 1];
      PowNext(b, n - 1);
      HeadAlgebra(s[0], Pow(b, n - 1), Num(s[1..n], b), b);
      assert s[..n][1..] == s[1..n] && s[1..][..n - 1] == s[1..n];
    }
  }

  lemma {:induction false} HeadAlgebra(x: int, p: int, v: int, b: int)
    ensures (x * p + v) * b == x * (b * p) + v * b
  {
    assert (x * p) * b == x * (b * p);
  }

  lemma {:induction false} PowZero(b: nat)
    ensures Pow(b, 0) == 1
  {
  }

  lemma {:induction false} PowNext(b: nat, n: nat)
    ensures Pow(b, n + 1) == b * Pow(b, n)
  {
  }

  lemma {:induction false} NumZeros(s: seq<nat>, b: nat)
    requires forall i :: 0 <= i < |s| ==> s[i] == 0
    ensures Num(s, b) == 0
  {
    if s != [] { NumZeros(s[..|s| - 1], b); }
  }

  /** Leading zeros do not count. */
  lemma {:induction false} NumSkip(s: seq<nat>, k: nat, b: nat)
    requires k <= |s| && forall i :: 0 <= i < k ==> s[i] == 0
    ensures Num(s, b) == Num(s[k..], b)
  {
    hide Pow, Num;
    if k > 0 {
      NumHead(s, b);
      NumSkip(s[1..], k - 1, b);
      assert s[1..][k - 1..] == s[k..];
    } else {
      assert s[0..] == s;
    }
  }

  lemma {:induction false} NumDigits(v: nat, b: nat)
    requires b > 1
    ensures Num(Digits(v, b), b) == v && Canonical(Digits(v, b), b)
  {
    if v > 0 {
      var d, q := Digits(v, b), Quotient(v, b);
      NumDigits(q, b);
      DivMod(v, b);
      assert d[..|d| - 1] == Digits(q, b);
    }
  }

  /** Digits without leading zeros are the digits of their number. */
  lemma {:induction false} DigitsNum(s: seq<nat>, b: nat)
    requires b > 1 && Canonical(s, b)
    ensures Digits(Num(s, b), b) == s
  {
    if s != [] {
      var n := |s| - 1;
      var v := Num(s[..n], b);
      DigitsNum(s[..n], b);
      DivModUnique(v * b + s[n], b, v, s[n]);
      if n == 0 { assert s[..n] == []; }
      NumPositive(s, b);
      assert s == s[..n] + [s[n]];
    }
  }

  lemma {:induction false} NumPositive(s: seq<nat>, b: nat)
    requires b > 0 && s != [] && s[0] != 0
    ensures Num(s, b) >= Pow(b, |s| - 1) > 0
  {
    hide Pow, Num;
    NumHead(s, b);
    PowPositive(b, |s| - 1);
    MulMono(1, s[0], Pow(b, |s| - 1));
  }

  // ---------------------------------------------------------------- how many digits are enough

  lemma {:induction false} Table58()
    ensures Pow(58, 0) == 1 && Pow(58, 1) == 58 && Pow(58, 2) == 3364 && Pow(58, 3) == 195112
    ensures Pow(58, 4) == 11316496 && Pow(58, 5) == 656356768 && Pow(58, 6) == 38068692544
      && Pow(58, 7) == 2207984167552
    ensures Pow(58, 8) == 128063081718016 && Pow(58, 9) == 7427658739644928 && Pow(58, 10) == 430804206899405824
      && Pow(58, 11) == 24986644000165537792
    ensures Pow(58, 12) == 1449225352009601191936 && Pow(58, 13) == 84055070416556869132288
      && Pow(58, 14) == 4875194084160298409672704 && Pow(58, 15) == 282761256881297307761016832
  {
    assert Pow(58, 0) == 1;
    assert Pow(58, 1) == 58;
    assert Pow(58, 2) == 3364;
    assert Pow(58, 3) == 195112;
    assert Pow(58, 4) == 11316496;
    assert Pow(58, 5) == 656356768;
    assert Pow(58, 6) == 38068692544;
    assert Pow(58, 7) == 2207984167552;
    assert Pow(58, 8) == 128063081718016;
    assert Pow(58, 9) == 7427658739644928;
    assert Pow(58, 10) == 430804206899405824;
    assert Pow(58, 11) == 24986644000165537792;
    assert Pow(58, 12) == 1449225352009601191936;
    assert Pow(58, 13) == 84055070416556869132288;
    assert Pow(58, 14) == 4875194084160298409672704;
    assert Pow(58, 15) == 282761256881297307761016832;
  }

  lemma {:induction false} Table256()
    ensures Pow(256, 0) == 0x1 && Pow(256, 1) == 0x100 && Pow(256, 2) == 0x10000 && Pow(256, 3) == 0x1000000
    ensures Pow(256, 4) == 0x100000000 && Pow(256, 5) == 0x10000000000 && Pow(256, 6) == 0x1000000000000
      && Pow(256, 7) == 0x100000000000000
    ensures Pow(256, 8) == 0x10000000000000000 && Pow(256, 9) == 0x1000000000000000000
      && Pow(256, 10) == 0x100000000000000000000 && Pow(256, 11) == 0x10000000000000000000000
  {
    assert Pow(256, 0) == 0x1;
    assert Pow(256, 1) == 0x100;
    assert Pow(256, 2) == 0x10000;
    assert Pow(256, 3) == 0x1000000;
    assert Pow(256, 4) == 0x100000000;
    assert Pow(256, 5) == 0x10000000000;
    assert Pow(256, 6) == 0x1000000000000;
    assert Pow(256, 7) == 0x100000000000000;
    assert Pow(256, 8) == 0x10000000000000000;
    assert Pow(256, 9) == 0x1000000000000000000;
    assert Pow(256, 10) == 0x100000000000000000000;
    assert Pow(256, 11) == 0x10000000000000000000000;
  }

  /** Raising both sides of an inequality between powers to the same power. */
  lemma {:induction false} PowScale(a: nat, m: nat, b: nat, n: nat, k: nat)
    requires Pow(a, m) <= Pow(b, n)
    ensures Pow(a, m * k) <= Pow(b, n * k)
  {
    hide Pow;
    if k == 0 {
      PowZero(a); PowZero(b);
    } else {
      PowScale(a, m, b, n, k - 1);
      PowAdd(a, m, m * (k - 1));
      PowAdd(b, n, n * (k - 1));
      MulMono(Pow(a, m), Pow(b, n), Pow(a, m * (k - 1)));
      MulMono(Pow(a, m * (k - 1)), Pow(b, n * (k - 1)), Pow(b, n));
      assert m + m * (k - 1) == m * k && n + n * (k - 1) == n * k;
    }
  }

  /** A bound for a period and one for the remainder make a bound for their sum. */
  lemma {:induction false} PowCombine(a: nat, m: nat, r: nat, b: nat, n: nat, e: nat, top: nat)
    requires a > 0 && b > 0 && Pow(a, m) <= Pow(b, n) && Pow(a, r) < Pow(b, e) && n + e <= top
    ensures Pow(a, m + r) < Pow(b, top)
  {
    hide Pow;
    PowAdd(a, m, r);
    PowAdd(b, n, e);
    PowGrows(b, n + e, top);
    PowPositive(b, n);
    ProductsOrdered(Pow(a, m), Pow(a, r), Pow(b, n), Pow(b, e));
  }

  lemma {:induction false} ProductsOrdered(x: nat, y: nat, p: nat, q: nat)
    requires x <= p && y < q && p > 0
    ensures x * y < p * q
  {
    MulMono(x, p, y);
    MulStrict(y, q, p);
  }

  /** 138/100 base-58 digits a byte are enough: eight bytes fit in eleven digits. */
  lemma {:induction false} EncodeRoom(n: nat)
    ensures Pow(256, n) < Pow(58, n * 138 / 100 + 1)
  {
    hide Pow;
    var q, r := n / 8, n % 8;
    Table58();
    Table256();
    PowScale(256, 8, 58, 11, q);
    assert n == 8 * q + r;
    PowCombine(256, 8 * q, r, 58, 11 * q, r * 138 / 100 + 1, n * 138 / 100 + 1);
  }

  /** 733/1000 bytes a base-58 digit are enough for up to 70 digits. */
  lemma {:induction false} DecodeRoomSmall(r: nat)
    requires r < 71
    ensures Pow(58, r) < Pow(256, r * 733 / 1000 + 1)
  {
    hide Pow;
    var q, t := r / 15, r % 15;
    Table58();
    Table256();
    PowScale(58, 15, 256, 11, q);
    assert r == 15 * q + t;
    if t > 0 {
      PowCombine(58, 15 * q, t, 256, 11 * q, t * 733 / 1000 + 1, r * 733 / 1000 + 1);
    } else if q > 0 {
      PowScale(58, 15, 256, 11, q - 1);
      PowCombine(58, 15 * (q - 1), 15, 256, 11 * (q - 1), 11, 11 * q);
    }
  }

  lemma {:induction false} Period71()
    ensures Pow(58, 71) <= Pow(256, 52)
  {
    hide Pow;
    Table58();
    Table256();
    PowAdd(58, 15, 15); PowAdd(58, 30, 30); PowAdd(58, 60, 11);
    PowAdd(256, 11, 11); PowAdd(256, 22, 22); PowAdd(256, 44, 8);
  }

  /** And for any number of digits. */
  lemma {:induction false} DecodeRoom(n: nat)
    ensures Pow(58, n) < Pow(256, n * 733 / 1000 + 1)
  {
    hide Pow;
    var q, r := n / 71, n % 71;
    Period71();
    DecodeRoomSmall(r);
    PowScale(58, 71, 256, 52, q);
    assert n == 71 * q + r;
    PowCombine(58, 71 * q, r, 256, 52 * q, r * 733 / 1000 + 1, n * 733 / 1000 + 1);
  }

  // ---------------------------------------------------------------- the carry loop

  /** The last `length` digits of the buffer hold a number without leading zeros. */
  ghost predicate Holds(buf: seq<nat>, length: nat, b: nat) {
    && InBase(buf, b) && length <= |buf| && (forall i :: 0 <= i < |buf| - length ==> buf[i] == 0)
    && (length > 0 ==> buf[|buf| - length] != 0)
  }

  /** One position of the carry loop. */
  lemma {:induction false} CarryDigit(now: seq<nat>, was: seq<nat>, k: nat, carry: nat, from: nat, to: nat, digit: nat)
    requires |now| == |was| && 0 < k <= |now| && to > 0 && now[k - 1] == was[k - 1]
    requires Num(now[k..], to) + carry * Pow(to, |now| - k) == from * Num(was[k..], to) + digit
    ensures var t := carry + from * was[k - 1]; var next := now[k - 1 := t % to];
            Num(next[k - 1..], to) + Quotient(t, to) * Pow(to, |now| - k + 1) == from * Num(was[k - 1..], to) + digit
  {
    hide Pow, Num;
    var t, p := carry + from * was[k - 1], Pow(to, |now| - k);
    var next := now[k - 1 := t % to];
    NumHead(next[k - 1..], to);
    NumHead(was[k - 1..], to);
    assert next[k - 1..][1..] == now[k..] && was[k - 1..][1..] == was[k..];
    PowNext(to, |now| - k);
    DivMod(t, to);
    CarryAlgebra(t % to, Quotient(t, to), to, p, carry, from, was[k - 1], Num(was[k..], to));
  }

  lemma {:induction false} CarryAlgebra(low: int, high: int, to: int, p: int, carry: int, from: int, x: int, v: int)
    requires high * to + low == carry + from * x
    ensures low * p + high * (to * p) == carry * p + from * (x * p + v) - from * v
  {
    assert high * (to * p) == (high * to) * p;
    Distribute(low, high * to, p);
    Distribute(carry, from * x, p);
    assert from * (x * p + v) == from * (x * p) + from * v;
    Assoc(from, x, p);
  }

  /** `buf = buf * from + digit`, in base `to`, as far as the buffer reaches. */
  method PushDigit(buf: array<nat>, length: nat, from: nat, to: nat, digit: nat) returns (newLength: nat, carry: nat)
    requires to > 1 && from > 0 && Holds(buf[..], length, to)
    modifies buf
    ensures Num(buf[..], to) + carry * Pow(to, buf.Length) == from * Num(old(buf[..]), to) + digit
    ensures carry == 0 ==> Holds(buf[..], newLength, to) && length <= newLength
  {
    hide Pow, Num;
    ghost var was := buf[..];
    var size := buf.Length;
    carry := digit;
    var i := 0;
    PushStart(was, to, digit);
    while (carry != 0 || i < length) && i < size
      invariant 0 <= i <= size && InBase(buf[..], to) && buf[..size - i] == was[..size - i]
      invariant Num(buf[size - i..], to) + carry * Pow(to, i) == from * Num(was[size - i..], to) + digit
      invariant i > length ==> buf[size - i] != 0 || carry != 0
      decreases size - i
    {
      ghost var now := buf[..];
      assert now[size - i..] == buf[size - i..] && now[..size - i] == was[..size - i];
      CarryDigit(now, was, size - i, carry, from, to, digit);
      var t := carry + from * buf[size - 1 - i];
      TopDigit(t, to);
      buf[size - 1 - i] := t % to;
      assert buf[..] == now[size - 1 - i := t % to];
      carry := Quotient(t, to);
      i := i + 1;
    }
    newLength := i;
    PushEnd(buf[..], was, i, length, carry, from, to, digit);
  }

  lemma {:induction false} PushStart(was: seq<nat>, to: nat, digit: nat)
    ensures Num(was[|was|..], to) == 0 && digit * Pow(to, 0) == digit
  {
    assert was[|was|..] == [];
  }

  lemma {:induction false} TopDigit(t: nat, to: nat)
    requires to > 1
    ensures 0 <= t % to < to && (t != 0 ==> t % to != 0 || Quotient(t, to) != 0)
  {
    DivMod(t, to);
  }

  lemma {:induction false} PushEnd(buf: seq<nat>, was: seq<nat>, i: nat, length: nat, carry: nat, from: nat, to: nat,
                                   digit: nat)
    requires |buf| == |was| && i <= |buf| && to > 1 && from > 0 && Holds(was, length, to) && InBase(buf, to)
    requires buf[..|buf| - i] == was[..|buf| - i] && ((carry == 0 && i >= length) || i == |buf|)
    requires Num(buf[|buf| - i..], to) + carry * Pow(to, i) == from * Num(was[|buf| - i..], to) + digit
    requires i > length ==> buf[|buf| - i] != 0 || carry != 0
    ensures Num(buf, to) + carry * Pow(to, |buf|) == from * Num(was, to) + digit
    ensures carry == 0 ==> Holds(buf, i, to) && length <= i
  {
    hide Pow, Num;
    var k := |buf| - i;
    forall j | 0 <= j < k ensures was[j] == 0 && buf[j] == 0 { assert buf[..k][j] == was[..k][j]; }
    NumSkip(buf, k, to);
    NumSkip(was, k, to);
    if carry == 0 && i == length && i > 0 {
      StaysCanonical(buf, was, i, from, to, digit);
    }
  }

  /** A product by `from` of a number with `i` digits has no fewer digits. */
  lemma {:induction false} StaysCanonical(buf: seq<nat>, was: seq<nat>, i: nat, from: nat, to: nat, digit: nat)
    requires |buf| == |was| && 0 < i <= |buf| && to > 1 && from > 0 && InBase(buf, to) && was[|buf| - i] != 0
    requires Num(buf[|buf| - i..], to) == from * Num(was[|buf| - i..], to) + digit
    ensures buf[|buf| - i] != 0
  {
    hide Pow, Num;
    var b, w := buf[|buf| - i..], was[|buf| - i..];
    NumPositive(w, to);
    MulMono(1, from, Num(w, to));
    NumHead(b, to);
    NumBound(b[1..], to);
  }
}
