/** Base58: byte strings as numbers in base 58, with leading zero bytes as leading ones. */
module Base58 {
  import opened Options
  import opened Powers
  import opened Radix

  /** The alphabet: digits and letters without "0", "I", "O" and "l". */
  function AlphabetChar(d: nat): char
    requires d < 58
  {
    if d < 9 then ('1' as int + d) as char
    else if d < 17 then ('A' as int + (d - 9)) as char
    else if d < 22 then ('J' as int + (d - 17)) as char
    else if d < 33 then ('P' as int + (d - 22)) as char
    else if d < 44 then ('a' as int + (d - 33)) as char
    else ('m' as int + (d - 44)) as char
  }

  /** Its inverse, -1 for other characters. */
  function MapBase58(c: char): (d: int)
    ensures -1 <= d < 58
  {
    if '1' <= c <= '9' then c as int - '1' as int
    else if 'A' <= c <= 'H' then 9 + (c as int - 'A' as int)
    else if 'J' <= c <= 'N' then 17 + (c as int - 'J' as int)
    else if 'P' <= c <= 'Z' then 22 + (c as int - 'P' as int)
    else if 'a' <= c <= 'k' then 33 + (c as int - 'a' as int)
    else if 'm' <= c <= 'z' then 44 + (c as int - 'm' as int)
    else -1
  }

  predicate IsSpace(c: char) { c as int == 32 || 9 <= c as int <= 13 }

  predicate IsOne(c: char) { c == '1' }

  predicate NotSpace(c: char) { !IsSpace(c) }

  lemma {:induction false} CharDigit(d: nat)
    requires d < 58
    ensures MapBase58(AlphabetChar(d)) == d && NotSpace(AlphabetChar(d)) && (IsOne(AlphabetChar(d)) <==> d == 0)
  {
  }

  lemma {:induction false} DigitChar(c: char)
    requires MapBase58(c) >= 0
    ensures AlphabetChar(MapBase58(c)) == c
  {
  }

  /** The alphabet, in order. */
  lemma {:induction false} AlphabetIs(d: nat)
    requires d < 58
    ensures AlphabetChar(d) ==
      ("123456789" + "ABCDEFGH" + "JKLMN" + "PQRSTUVWXYZ" + "abcdefghijk" + "mnopqrstuvwxyz")[d]
  {
    if d < 9 {
      assert d == 0 || d == 1 || d == 2 || d == 3 || d == 4 || d == 5 || d == 6 || d == 7 || d == 8;
    } else if d < 17 {
      assert d == 9 || d == 10 || d == 11 || d == 12 || d == 13 || d == 14 || d == 15 || d == 16;
    } else if d < 22 {
      assert d == 17 || d == 18 || d == 19 || d == 20 || d == 21;
    } else if d < 33 {
      assert d == 22 || d == 23 || d == 24 || d == 25 || d == 26 || d == 27 || d == 28 || d == 29 || d == 30
        || d == 31 || d == 32;
    } else if d < 44 {
      assert d == 33 || d == 34 || d == 35 || d == 36 || d == 37 || d == 38 || d == 39 || d == 40 || d == 41
        || d == 42 || d == 43;
    } else {
      assert d == 44 || d == 45 || d == 46 || d == 47 || d == 48 || d == 49 || d == 50 || d == 51 || d == 52
        || d == 53 || d == 54 || d == 55 || d == 56 || d == 57;
    }
  }

  // ---------------------------------------------------------------- what the codec computes

  function Chars(digits: seq<nat>): (s: string)
    requires forall i :: 0 <= i < |digits| ==> digits[i] < 58
    ensures |s| == |digits| && forall i :: 0 <= i < |s| ==> s[i] == AlphabetChar(digits[i])
  {
    seq(|digits|, i requires 0 <= i < |digits| => AlphabetChar(digits[i]))
  }

  ghost predicate AllValid(s: string) { forall i :: 0 <= i < |s| ==> MapBase58(s[i]) >= 0 }

  ghost function DigitsOf(s: string): (d: seq<nat>)
    requires AllValid(s)
    ensures |d| == |s| && InBase(d, 58) && forall i :: 0 <= i < |s| ==> d[i] == MapBase58(s[i])
  {
    seq(|s|, i requires 0 <= i < |s| => MapBase58(s[i]))
  }

  function Repeat<T>(n: nat, x: T): (s: seq<T>)
    ensures |s| == n && forall i :: 0 <= i < n ==> s[i] == x
  {
    seq(n, _ => x)
  }

  function LeadingZeros(s: seq<nat>): (z: nat)
    ensures z <= |s| && (forall i :: 0 <= i < z ==> s[i] == 0) && (z < |s| ==> s[z] != 0)
  {
    if s == [] || s[0] != 0 then 0 else 1 + LeadingZeros(s[1..])
  }

  function Encode(bytes: seq<nat>): string {
    Repeat(LeadingZeros(bytes), '1') + Chars(Digits(Num(bytes, 256), 58))
  }

  /** The first position from `i` on whose character does not satisfy `p`. */
  function Skip(s: string, i: nat, p: char -> bool): (j: nat)
    requires i <= |s|
    ensures i <= j <= |s| && (forall k :: i <= k < j ==> p(s[k])) && (j < |s| ==> !p(s[j]))
    decreases |s| - i
  {
    if i < |s| && p(s[i]) then Skip(s, i + 1, p) else i
  }

  /** Spaces, ones, digits, spaces: the bytes they stand for, if the string has this form. */
  ghost function Decode(s: string): Option<seq<nat>> {
    var a := Skip(s, 0, IsSpace);
    var b := Skip(s, a, IsOne);
    var c := Skip(s, b, NotSpace);
    if AllValid(s[b..c]) && Skip(s, c, IsSpace) == |s|
    then Some(Repeat(b - a, 0) + Digits(Num(DigitsOf(s[b..c]), 58), 256)) else None
  }

  // ---------------------------------------------------------------- round trips

  lemma {:induction false} SkipIs(s: string, i: nat, j: nat, p: char -> bool)
    requires i <= j <= |s| && (forall k :: i <= k < j ==> p(s[k])) && (j < |s| ==> !p(s[j]))
    ensures Skip(s, i, p) == j
    decreases j - i
  {
    if i < j { SkipIs(s, i + 1, j, p); }
  }

  /** A string without spaces: its leading ones and the digits after them. */
  lemma {:induction false} DecodeOf(s: string, z: nat)
    requires z <= |s| && (forall i :: 0 <= i < |s| ==> NotSpace(s[i]))
    requires (forall i :: 0 <= i < z ==> IsOne(s[i])) && (z < |s| ==> !IsOne(s[z]))
    ensures AllValid(s[z..]) ==> Decode(s) == Some(Repeat(z, 0) + Digits(Num(DigitsOf(s[z..]), 58), 256))
    ensures !AllValid(s[z..]) ==> Decode(s) == None
  {
    hide Num, Digits, AllValid, MapBase58;
    SkipIs(s, 0, 0, IsSpace);
    SkipIs(s, 0, z, IsOne);
    SkipIs(s, z, |s|, NotSpace);
    SkipIs(s, |s|, |s|, IsSpace);
    assert s[z..|s|] == s[z..];
  }

  lemma {:induction false} CharsBack(digits: seq<nat>)
    requires InBase(digits, 58)
    ensures AllValid(Chars(digits)) && DigitsOf(Chars(digits)) == digits
    ensures forall i :: 0 <= i < |digits| ==>
      NotSpace(Chars(digits)[i]) && (IsOne(Chars(digits)[i]) <==> digits[i] == 0)
  {
    hide AlphabetChar, MapBase58, IsSpace;
    forall i | 0 <= i < |digits|
      ensures MapBase58(Chars(digits)[i]) == digits[i] && NotSpace(Chars(digits)[i])
        && (IsOne(Chars(digits)[i]) <==> digits[i] == 0)
    {
      CharDigit(digits[i]);
    }
  }

  lemma {:induction false} CharsOf(s: string)
    requires AllValid(s)
    ensures Chars(DigitsOf(s)) == s
  {
    hide AlphabetChar, MapBase58;
    forall i | 0 <= i < |s| ensures Chars(DigitsOf(s))[i] == s[i] { DigitChar(s[i]); }
  }

  /** Decoding an encoding gives the bytes back. */
  lemma {:induction false} DecodeEncode(bytes: seq<nat>)
    requires InBase(bytes, 256)
    ensures Decode(Encode(bytes)) == Some(bytes)
  {
    hide Num, Digits, Decode, AllValid, AlphabetChar, MapBase58, IsSpace, LeadingZeros;
    var z, v := LeadingZeros(bytes), Num(bytes, 256);
    var digits := Digits(v, 58);
    NumDigits(v, 58);
    CharsBack(digits);
    var s := Repeat(z, '1') + Chars(digits);
    forall i | 0 <= i < |s| ensures NotSpace(s[i]) { OneIsNoSpace(); }
    assert s[z..] == Chars(digits);
    DecodeOf(s, z);
    NumSkip(bytes, z, 256);
    DigitsNum(bytes[z..], 256);
    assert bytes == Repeat(z, 0) + bytes[z..];
  }

  lemma {:induction false} OneIsNoSpace()
    ensures NotSpace('1') && IsOne('1')
  {
  }

  /** Encoding what a string without spaces decodes to gives the string back. */
  lemma {:induction false} EncodeDecode(s: string)
    requires Decode(s).Some? && forall i :: 0 <= i < |s| ==> NotSpace(s[i])
    ensures Encode(Decode(s).value) == s
  {
    hide Num, Digits, Decode, AllValid, AlphabetChar, MapBase58, IsSpace, LeadingZeros;
    var b := Skip(s, 0, IsOne);
    DecodeOf(s, b);
    var digits := DigitsOf(s[b..]);
    var v := Num(digits, 58);
    NumDigits(v, 256);
    var tail := Digits(v, 256);
    var bytes := Repeat(b, 0) + tail;
    LeadingIs(bytes, b);
    NumSkip(bytes, b, 256);
    assert bytes[b..] == tail;
    if b < |s| { FirstDigit(s, b); }
    DigitsNum(digits, 58);
    CharsOf(s[b..]);
    assert s == Repeat(b, '1') + s[b..];
  }

  lemma {:induction false} FirstDigit(s: string, b: nat)
    requires b < |s| && AllValid(s[b..]) && !IsOne(s[b])
    ensures MapBase58(s[b]) != 0
  {
    assert s[b..][0] == s[b];
  }

  lemma {:induction false} LeadingIs(s: seq<nat>, z: nat)
    requires z <= |s| && (forall i :: 0 <= i < z ==> s[i] == 0) && (z < |s| ==> s[z] != 0)
    ensures LeadingZeros(s) == z
  {
    if z > 0 { LeadingIs(s[1..], z - 1); }
  }

  // ---------------------------------------------------------------- the loops

  /** A number that fits cannot leave a carry. */
  lemma {:induction false} NoCarry(now: nat, carry: nat, p: nat, v: nat)
    requires now + carry * p == v < p
    ensures carry == 0
  {
    if carry > 0 { MulMono(1, carry, p); }
  }

  lemma {:induction false} HeldDigits(buf: seq<nat>, length: nat, b: nat)
    requires b > 1 && Holds(buf, length, b)
    ensures buf[|buf| - length..] == Digits(Num(buf, b), b)
  {
    hide Num, Digits;
    var k := |buf| - length;
    NumSkip(buf, k, b);
    DigitsNum(buf[k..], b);
  }

  method EncodeBase58(input: seq<nat>) returns (str: string)
    requires InBase(input, 256)
    ensures str == Encode(input)
  {
    hide Num, Digits, Pow;
    var zeroes := SkipZeros(input, 0);
    LeadingIs(input, zeroes);
    var rest := input[zeroes..];
    var size := |rest| * 138 / 100 + 1;
    var b58 := new nat[size](_ => 0);
    var length := 0;
    NumZeros(b58[..], 58);
    EmptyNum(rest);
    EncodeRoom(|rest|);
    for k := 0 to |rest|
      invariant Holds(b58[..], length, 58) && Num(b58[..], 58) == Num(rest[..k], 256)
    {
      var carry;
      length, carry := PushDigit(b58, length, 256, 58, rest[k]);
      NextNum(rest, k, 256);
      Fits(rest, k + 1, 256);
      NoCarry(Num(b58[..], 58), carry, Pow(58, size), Num(rest[..k + 1], 256));
    }
    assert rest[..|rest|] == rest;
    HeldDigits(b58[..], length, 58);
    NumSkip(input, zeroes, 256);
    var at := SkipZeros(b58[..], size - length);
    str := Repeat(zeroes, '1') + Chars(b58[at..]);
  }

  method SkipZeros(s: seq<nat>, start: nat) returns (at: nat)
    requires start <= |s|
    ensures start <= at <= |s| && (forall i :: start <= i < at ==> s[i] == 0) && (at < |s| ==> s[at] != 0)
  {
    at := start;
    while at < |s| && s[at] == 0
      invariant start <= at <= |s| && forall i :: start <= i < at ==> s[i] == 0
    {
      at := at + 1;
    }
  }

  lemma {:induction false} EmptyNum(s: seq<nat>)
    ensures Num(s[..0], 256) == 0 && Num(s[..0], 58) == 0
  {
  }

  lemma {:induction false} NextNum(s: seq<nat>, k: nat, b: nat)
    requires k < |s|
    ensures Num(s[..k + 1], b) == b * Num(s[..k], b) + s[k]
  {
    assert s[..k + 1][..k] == s[..k];
  }

  lemma {:induction false} Fits(s: seq<nat>, k: nat, b: nat)
    requires InBase(s, b) && b > 0 && k <= |s|
    ensures Num(s[..k], b) < Pow(b, |s|)
  {
    hide Num, Pow;
    NumBound(s[..k], b);
    PowGrows(b, k, |s|);
  }

  /** The bytes, unless there are more than the caller takes. */
  ghost function Limited(r: Option<seq<nat>>, maxLength: int): Option<seq<nat>> {
    if r.Some? && r.value != [] && |r.value| > maxLength then None else r
  }

  /** The digits up to the first space, in base 256, if all are valid and the result is not too long. */
  method DecodeDigits(rest: string, room: int) returns (ok: bool, bytes: seq<nat>, i: nat)
    ensures var c := Skip(rest, 0, NotSpace);
            if AllValid(rest[..c]) && (c == 0 || |Digits(Num(DigitsOf(rest[..c]), 58), 256)| <= room)
            then ok && i == c && bytes == Digits(Num(DigitsOf(rest[..c]), 58), 256)
            else !ok
  {
    hide Num, Digits, Pow, AllValid, MapBase58, IsSpace, AlphabetChar, Skip, DigitsOf;
    ok, bytes := false, [];
    var size := |rest| * 733 / 1000 + 1;
    var b256 := new nat[size](_ => 0);
    var length: nat := 0;
    i := 0;
    NumZeros(b256[..], 256);
    NoDigits(rest);
    DecodeRoom(|rest|);
    ghost var c := Skip(rest, 0, NotSpace);
    while i < |rest| && NotSpace(rest[i])
      invariant i <= c && AllValid(rest[..i])
      invariant Holds(b256[..], length, 256) && Num(b256[..], 256) == Num(DigitsOf(rest[..i]), 58)
      invariant i == 0 || length <= room
    {
      var digit := MapBase58(rest[i]);
      if digit == -1 {
        NotValid(rest, c, i);
        return;
      }
      var carry;
      length, carry := PushDigit(b256, length, 58, 256, digit);
      NextDigit(rest, i);
      DigitsFit(rest, i + 1);
      NoCarry(Num(b256[..], 256), carry, Pow(256, size), Num(DigitsOf(rest[..i + 1]), 58));
      i := i + 1;
      if length > room {
        TooLong(rest, c, i, b256[..], length);
        return;
      }
    }
    HeldDigits(b256[..], length, 256);
    ok, bytes := true, b256[size - length..];
  }

  method DecodeBase58(str: string, maxLength: int) returns (r: Option<seq<nat>>)
    ensures r == Limited(Decode(str), maxLength)
  {
    hide Num, Digits, Pow, AllValid, MapBase58, IsSpace, AlphabetChar, Decode, Limited;
    var a := Skip(str, 0, IsSpace);
    var b := Skip(str, a, IsOne);
    var zeroes := b - a;
    DecodeIs(str, maxLength);
    if zeroes > 0 && zeroes > maxLength { return None; }
    var ok, bytes, i := DecodeDigits(str[b..], maxLength - zeroes);
    if !ok { return None; }
    var d := Skip(str, b + i, IsSpace);
    if d != |str| { return None; }
    r := Some(Repeat(zeroes, 0) + bytes);
  }

  /** The answer in the terms the loops work with. */
  lemma {:induction false} DecodeIs(s: string, maxLength: int)
    ensures var a := Skip(s, 0, IsSpace); var b := Skip(s, a, IsOne); var n := Skip(s[b..], 0, NotSpace);
            Limited(Decode(s), maxLength) ==
              if AllValid(s[b..][..n]) then
                var d := Digits(Num(DigitsOf(s[b..][..n]), 58), 256);
                if Skip(s, b + n, IsSpace) == |s| && (b == a || b - a <= maxLength)
                  && (n == 0 || |d| <= maxLength - (b - a))
                then Some(Repeat(b - a, 0) + d) else None
              else None
  {
    hide Num, Digits, AllValid, MapBase58, IsSpace, AlphabetChar, Skip, Repeat, NotSpace, IsOne, DigitsOf;
    var a := Skip(s, 0, IsSpace);
    var b := Skip(s, a, IsOne);
    var n := Skip(s[b..], 0, NotSpace);
    SkipShift(s, b);
    assert s[b..][..n] == s[b..b + n];
    if AllValid(s[b..][..n]) { CoreLength(s[b..], n); }
  }

  /** No digits, no bytes; a first digit other than zero, at least one byte. */
  lemma {:induction false} CoreLength(s: string, n: nat)
    requires n <= |s| && AllValid(s[..n]) && (n > 0 ==> !IsOne(s[0]))
    ensures n == 0 <==> Digits(Num(DigitsOf(s[..n]), 58), 256) == []
  {
    if n == 0 {
      NoDigits(s);
    } else {
      hide Num, Digits, Pow;
      FirstDigit(s[..n], 0);
      assert s[..n][0..] == s[..n];
      NumPositive(DigitsOf(s[..n]), 58);
      OnePower();
      DigitsLength(Num(DigitsOf(s[..n]), 58), 256, 1);
    }
  }

  lemma {:induction false} OnePower()
    ensures Pow(256, 0) == 1
  {
  }

  lemma {:induction false} SkipShift(s: string, b: nat)
    requires b <= |s|
    ensures Skip(s, b, NotSpace) == b + Skip(s[b..], 0, NotSpace)
  {
    var n := Skip(s[b..], 0, NotSpace);
    forall k | b <= k < b + n ensures NotSpace(s[k]) { assert s[b..][k - b] == s[k]; }
    SkipIs(s, b, b + n, NotSpace);
  }

  lemma {:induction false} NoDigits(s: string)
    ensures AllValid(s[..0]) && Num(DigitsOf(s[..0]), 58) == 0
  {
  }

  lemma {:induction false} NextDigit(s: string, i: nat)
    requires i < |s| && AllValid(s[..i]) && MapBase58(s[i]) != -1
    ensures AllValid(s[..i + 1]) && Num(DigitsOf(s[..i + 1]), 58) == 58 * Num(DigitsOf(s[..i]), 58) + MapBase58(s[i])
  {
    hide MapBase58;
    var t := s[..i + 1];
    forall k | 0 <= k < |t| ensures MapBase58(t[k]) >= 0 { assert k < i ==> t[k] == s[..i][k]; }
    assert DigitsOf(t)[..i] == DigitsOf(s[..i]);
    NextNum(DigitsOf(t), i, 58);
    assert DigitsOf(t)[..i + 1] == DigitsOf(t);
  }

  lemma {:induction false} DigitsFit(s: string, i: nat)
    requires i <= |s| && AllValid(s[..i])
    ensures Num(DigitsOf(s[..i]), 58) < Pow(58, |s|)
  {
    hide Num, Pow, MapBase58;
    NumBound(DigitsOf(s[..i]), 58);
    PowGrows(58, i, |s|);
  }

  lemma {:induction false} NotValid(s: string, c: nat, i: nat)
    requires i < c <= |s| && MapBase58(s[i]) == -1
    ensures !AllValid(s[..c])
  {
    assert s[..c][i] == s[i];
  }

  /** More digits only make the number longer: an early refusal is a final one. */
  lemma {:induction false} TooLong(s: string, c: nat, i: nat, buf: seq<nat>, length: nat)
    requires i <= c <= |s| && AllValid(s[..i]) && Holds(buf, length, 256)
    requires Num(buf, 256) == Num(DigitsOf(s[..i]), 58)
    ensures AllValid(s[..c]) ==> |Digits(Num(DigitsOf(s[..c]), 58), 256)| >= length
  {
    hide Num, Digits, Pow, MapBase58;
    if AllValid(s[..c]) && length > 0 {
      var all, part := DigitsOf(s[..c]), DigitsOf(s[..i]);
      assert part == all[..i];
      NumPrefix(all, i, 58);
      NumSkip(buf, |buf| - length, 256);
      NumPositive(buf[|buf| - length..], 256);
      DigitsLength(Num(all, 58), 256, length);
    }
  }

  lemma {:induction false} NumPrefix(s: seq<nat>, k: nat, b: nat)
    requires k <= |s| && b > 0
    ensures Num(s[..k], b) <= Num(s, b)
  {
    if k < |s| {
      var n := |s| - 1;
      NumPrefix(s[..n], k, b);
      assert s[..n][..k] == s[..k];
      MulMono(1, b, Num(s[..n], b));
    } else {
      assert s[..k] == s;
    }
  }

  lemma {:induction false} DigitsLength(v: nat, b: nat, n: nat)
    requires b > 1 && n > 0 && v >= Pow(b, n - 1)
    ensures |Digits(v, b)| >= n
  {
    hide Num, Digits, Pow;
    NumDigits(v, b);
    NumBound(Digits(v, b), b);
    if |Digits(v, b)| < n { PowGrows(b, |Digits(v, b)|, n - 1); }
  }
}
