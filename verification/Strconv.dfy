/** Byte strings and the decimal conversions of Go's strconv on 64-bit integers. */
module Strconv {

  type byte = x: int | 0 <= x < 256
  type Bytes = seq<byte>

  datatype Option<+T> = None | Some(value: T)

  const MAX_INT64: int := 0x7FFF_FFFF_FFFF_FFFF
  const MIN_INT64: int := -0x8000_0000_0000_0000

  /** Go's sum of two ints, which wraps around at 64 bits. */
  function Add64(x: int, y: int): int
    requires MIN_INT64 <= x <= MAX_INT64 && MIN_INT64 <= y <= MAX_INT64
  {
    if x + y > MAX_INT64 then x + y - 0x1_0000_0000_0000_0000
    else if x + y < MIN_INT64 then x + y + 0x1_0000_0000_0000_0000
    else x + y
  }

  /** A Go slice, whose length is an int. */
  type Input = s: Bytes | |s| <= MAX_INT64

  /** The least index at or after `from` that holds b, or |data|. */
  function IndexByte(data: Bytes, from: nat, b: byte): (i: nat)
    ensures from <= |data| ==> from <= i <= |data|
    ensures from > |data| ==> i == from
    ensures forall k :: from <= k < i && k < |data| ==> data[k] != b
    ensures i < |data| ==> data[i] == b
    decreases |data| - from
  {
    if from >= |data| then from
    else if data[from] == b then from
    else IndexByte(data, from + 1, b)
  }

  const PLUS: byte := 43
  const MINUS: byte := 45
  const ZERO: byte := 48

  predicate IsDigit(b: byte) { ZERO <= b <= ZERO + 9 }

  predicate AllDigits(s: Bytes) { forall i :: 0 <= i < |s| ==> IsDigit(s[i]) }

  function DigitsValue(s: Bytes): nat
    requires AllDigits(s)
  {
    if s == [] then 0 else 10 * DigitsValue(s[..|s| - 1]) + (s[|s| - 1] - ZERO)
  }

  /** strconv.ParseInt(s, 10, 64), which strconv.Atoi is on a 64-bit platform. */
  function ParseInt(s: Bytes): (r: Option<int>)
    ensures r.Some? ==> MIN_INT64 <= r.value <= MAX_INT64
  {
    var negative := s != [] && s[0] == MINUS;
    var digits := if s != [] && (s[0] == MINUS || s[0] == PLUS) then s[1..] else s;
    if digits == [] || !AllDigits(digits) then None
    else
      var v: int := if negative then 0 - DigitsValue(digits) else DigitsValue(digits);
      if MIN_INT64 <= v <= MAX_INT64 then Some(v) else None
  }

  function FormatNat(n: nat): (s: Bytes)
    ensures s != [] && AllDigits(s)
  {
    if n < 10 then [ZERO + n] else FormatNat(n / 10) + [ZERO + n % 10]
  }

  lemma DigitsSnoc(front: Bytes, last: byte)
    requires AllDigits(front) && IsDigit(last)
    ensures AllDigits(front + [last]) && DigitsValue(front + [last]) == 10 * DigitsValue(front) + (last - ZERO)
  {
    assert (front + [last])[..|front|] == front;
  }

  lemma {:induction false} FormatNatValue(n: nat)
    ensures DigitsValue(FormatNat(n)) == n
  {
    if n < 10 {
      assert [] + [ZERO + n] == FormatNat(n);
      DigitsSnoc([], ZERO + n);
    } else {
      FormatNatValue(n / 10);
      DigitsSnoc(FormatNat(n / 10), ZERO + n % 10);
    }
  }

  /** The decimal form the BEP 3 integer and length prefixes are written in. */
  function FormatInt(n: int): Bytes {
    if n < 0 then [MINUS] + FormatNat(-n) else FormatNat(n)
  }

  lemma ParseFormat(n: int)
    requires MIN_INT64 <= n <= MAX_INT64
    ensures ParseInt(FormatInt(n)) == Some(n)
  {
    FormatNatValue(if n < 0 then -n else n);
    if n < 0 {
      assert FormatInt(n)[1..] == FormatNat(-n);
    } else {
      assert IsDigit(FormatNat(n)[0]);
    }
  }

  // --- Exactly what is read as an integer ---

  function Zeros(k: nat): Bytes { if k == 0 then [] else [ZERO] + Zeros(k - 1) }

  lemma {:induction false} ZerosSnoc(k: nat)
    ensures Zeros(k) + [ZERO] == Zeros(k + 1)
  {
    if k > 0 {
      ZerosSnoc(k - 1);
      assert Zeros(k) + [ZERO] == [ZERO] + (Zeros(k - 1) + [ZERO]);
    }
  }

  /** Any digits are zeros and then the decimal form of their value. */
  lemma {:induction false} DigitsAre(s: Bytes) returns (k: nat)
    requires s != [] && AllDigits(s)
    ensures s == Zeros(k) + FormatNat(DigitsValue(s))
  {
    var n := |s| - 1;
    var front, d := s[..n], s[n] - ZERO;
    assert s == front + [s[n]];
    if front == [] {
      k := 0;
      assert DigitsValue(front) == 0;
    } else {
      k := DigitsAre(front);
      var v := DigitsValue(front);
      if v == 0 {
        ZerosSnoc(k);
        k := k + 1;
      } else {
        TenTimes(v, d);
        assert Zeros(k) + (FormatNat(v) + [s[n]]) == Zeros(k) + FormatNat(v) + [s[n]];
      }
    }
  }

  lemma TenTimes(v: nat, d: nat)
    requires v > 0 && d < 10
    ensures FormatNat(10 * v + d) == FormatNat(v) + [ZERO + d]
  {
    assert (10 * v + d) / 10 == v && (10 * v + d) % 10 == d;
  }

  lemma {:induction false} ZerosValue(k: nat, s: Bytes)
    requires AllDigits(s)
    ensures AllDigits(Zeros(k) + s) && DigitsValue(Zeros(k) + s) == DigitsValue(s)
    decreases |s|, k
  {
    if s == [] {
      assert Zeros(k) + s == Zeros(k);
      if k > 0 {
        ZerosValue(k - 1, s);
        assert Zeros(k - 1) + s == Zeros(k - 1);
        ZerosSnoc(k - 1);
        DigitsSnoc(Zeros(k - 1), ZERO);
      }
    } else {
      var n := |s| - 1;
      ZerosValue(k, s[..n]);
      assert s == s[..n] + [s[n]];
      assert Zeros(k) + s == (Zeros(k) + s[..n]) + [s[n]];
      DigitsSnoc(Zeros(k) + s[..n], s[n]);
    }
  }

  /** A number as it may be written: perhaps a sign, perhaps zeros, and its decimal form. */
  ghost predicate Reads(s: Bytes, sign: Bytes, k: nat, n: int) {
    && sign in {[], [PLUS], [MINUS]} && (if sign == [MINUS] then n <= 0 else n >= 0)
    && s == sign + (Zeros(k) + FormatNat(if n < 0 then -n else n))
  }

  /** Exactly such numbers are read, up to 64 bits. */
  lemma ParseIntIff(s: Bytes, n: int)
    ensures ParseInt(s) == Some(n) <==> MIN_INT64 <= n <= MAX_INT64 && exists sign, k :: Reads(s, sign, k, n)
  {
    hide ParseInt, Reads;
    if ParseInt(s) == Some(n) {
      var sign, k := ReadAs(s, n);
      assert Reads(s, sign, k, n);
    }
    forall sign, k | MIN_INT64 <= n <= MAX_INT64 && Reads(s, sign, k, n) ensures ParseInt(s) == Some(n) {
      WrittenRead(s, sign, k, n);
    }
  }

  lemma ReadAs(s: Bytes, n: int) returns (sign: Bytes, k: nat)
    requires ParseInt(s) == Some(n)
    ensures MIN_INT64 <= n <= MAX_INT64 && Reads(s, sign, k, n)
  {
    hide FormatNat, DigitsValue, Zeros;
    sign := if s[0] == MINUS then [MINUS] else if s[0] == PLUS then [PLUS] else [];
    var digits := s[|sign|..];
    assert s == sign + digits;
    assert digits == if s[0] == MINUS || s[0] == PLUS then s[1..] else s;
    k := DigitsAre(digits);
    var m: int := DigitsValue(digits);
    assert n == if sign == [MINUS] then 0 - m else m;
    assert (if n < 0 then -n else n) == m;
  }

  lemma WrittenRead(s: Bytes, sign: Bytes, k: nat, n: int)
    requires MIN_INT64 <= n <= MAX_INT64 && Reads(s, sign, k, n)
    ensures ParseInt(s) == Some(n)
  {
    hide FormatNat, DigitsValue, Zeros, ParseInt;
    var m: nat := if n < 0 then -n else n;
    FormatNatValue(m);
    ZerosValue(k, FormatNat(m));
    SignRead(s, sign, Zeros(k) + FormatNat(m));
  }

  lemma SignRead(s: Bytes, sign: Bytes, digits: Bytes)
    requires sign in {[], [PLUS], [MINUS]} && digits != [] && AllDigits(digits) && s == sign + digits
    ensures var v := if sign == [MINUS] then 0 - DigitsValue(digits) else DigitsValue(digits);
      ParseInt(s) == if MIN_INT64 <= v <= MAX_INT64 then Some(v) else None
  {
    if sign == [] {
      assert IsDigit(digits[0]);
      assert s == digits;
    } else {
      assert s[1..] == digits;
    }
  }
}
