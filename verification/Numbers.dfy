/** Decimal numbers as Go's strconv reads and writes them, for 64-bit integers. */
module Numbers {
  import Bitwise

  const MAX_UINT64: int := 0xFFFF_FFFF_FFFF_FFFF
  const MAX_INT64: int := 0x7FFF_FFFF_FFFF_FFFF

  /** A 64-bit sum: arithmetic wraps around. */
  function Wrap64(x: int): (w: int)
    ensures -MAX_INT64 - 1 <= w <= MAX_INT64
    ensures -MAX_INT64 - 1 <= x <= MAX_INT64 ==> w == x
  {
    (x + MAX_INT64 + 1) % (MAX_UINT64 + 1) - MAX_INT64 - 1
  }

  lemma ModShift(a: int, m: int, k: int)
    requires m > 0
    ensures (a - m * k) % m == a % m
  {
    assert a - m * k == m * (a / m - k) + a % m;
    Bitwise.ModUnique(a - m * k, m, a / m - k, a % m);
  }

  lemma WrapIs(x: int) returns (k: int)
    ensures Wrap64(x) == x - (MAX_UINT64 + 1) * k
  {
    k := (x + MAX_INT64 + 1) / (MAX_UINT64 + 1);
  }

  /** Wrapping on the way makes no difference to the final sum. */
  lemma WrapTwice(x: int, y: int)
    ensures Wrap64(Wrap64(x) + Wrap64(y)) == Wrap64(x + y)
  {
    var m := MAX_UINT64 + 1;
    var i := WrapIs(x);
    var j := WrapIs(y);
    hide Wrap64;
    assert Wrap64(x) + Wrap64(y) == x + y - m * (i + j);
    WrapShift(x + y, i + j);
  }

  lemma WrapShift(z: int, k: int)
    ensures Wrap64(z - (MAX_UINT64 + 1) * k) == Wrap64(z)
  {
    ModShift(z + MAX_INT64 + 1, MAX_UINT64 + 1, k);
  }

  predicate IsDigit(c: char) { '0' <= c <= '9' }

  function DigitValue(c: char): int
    requires IsDigit(c)
  {
    (c as int) - ('0' as int)
  }

  function Decimal(n: nat): (s: string)
    ensures s != "" && IsDigit(s[0]) && forall i :: 0 <= i < |s| ==> IsDigit(s[i])
  {
    var d := (('0' as int) + n % 10) as char;
    if n < 10 then [d] else Decimal(n / 10) + [d]
  }

  /**
   * Reads digits after n has been read; the value sticks at the largest unsigned number as soon as it would pass
   * it.
   */
  function ParseUint(n: int, s: string): (r: int)
    requires 0 <= n <= MAX_UINT64
    ensures -1 <= r <= MAX_UINT64
    decreases s
  {
    if s == "" then n
    else if !IsDigit(s[0]) then -1
    else if 10 * n + DigitValue(s[0]) > MAX_UINT64 then MAX_UINT64
    else ParseUint(10 * n + DigitValue(s[0]), s[1..])
  }

  function Min(a: int, b: int): int { if a <= b then a else b }

  /** The value used when the error is ignored: 0 for malformed text, the nearest bound when out of range. */
  function ParseInt(s: string): (r: int)
    ensures -MAX_INT64 - 1 <= r <= MAX_INT64
  {
    var neg := s != "" && s[0] == '-';
    var digits := if s != "" && (s[0] == '-' || s[0] == '+') then s[1..] else s;
    var un := if digits == "" then -1 else ParseUint(0, digits);
    if un == -1 then 0
    else if neg then -Min(un, MAX_INT64 + 1)
    else Min(un, MAX_INT64)
  }

  lemma {:induction false} ParseOneMore(n: int, s: string, c: char)
    requires 0 <= n <= MAX_UINT64 && IsDigit(c) && forall i :: 0 <= i < |s| ==> IsDigit(s[i])
    ensures ParseUint(n, s) != -1
    ensures ParseUint(n, s + [c]) == Min(10 * ParseUint(n, s) + DigitValue(c), MAX_UINT64)
    decreases s
  {
    if s == "" {
      assert (s + [c])[1..] == "";
    } else {
      assert (s + [c])[1..] == s[1..] + [c];
      if 10 * n + DigitValue(s[0]) <= MAX_UINT64 {
        ParseOneMore(10 * n + DigitValue(s[0]), s[1..], c);
      }
    }
  }

  lemma {:induction false} ParseDecimal(n: nat)
    ensures ParseUint(0, Decimal(n)) == Min(n, MAX_UINT64)
  {
    var d := (('0' as int) + n % 10) as char;
    if n < 10 {
      assert Decimal(n) == "" + [d];
      ParseOneMore(0, "", d);
    } else {
      ParseDecimal(n / 10);
      ParseOneMore(0, Decimal(n / 10), d);
    }
  }

  /** The number that a text of digits stands for. */
  function ValueOf(s: string): (n: int)
    requires forall i :: 0 <= i < |s| ==> IsDigit(s[i])
    ensures n >= 0
  {
    if s == "" then 0 else 10 * ValueOf(s[..|s| - 1]) + DigitValue(s[|s| - 1])
  }

  lemma {:induction false} UintOfDigits(s: string)
    requires forall i :: 0 <= i < |s| ==> IsDigit(s[i])
    ensures ParseUint(0, s) == Min(ValueOf(s), MAX_UINT64)
  {
    if s == "" {
    } else {
      var init, c := s[..|s| - 1], s[|s| - 1];
      UintOfDigits(init);
      ParseOneMore(0, init, c);
      assert s == init + [c];
    }
  }

  /**
   * A text of digits, with a sign or without, is read as the signed 64-bit number it stands for, or the nearest
   * one; a text that does not start like a number is read as 0.
   */
  lemma ParseIntMeans(s: string)
    ensures s != "" && (forall i :: 0 <= i < |s| ==> IsDigit(s[i])) ==>
              && ParseInt(s) == ParseInt("+" + s) ==
                 (if ValueOf(s) < 0x8000_0000_0000_0000 then ValueOf(s) else 0x7FFF_FFFF_FFFF_FFFF)
              && ParseInt("-" + s) ==
                 (if ValueOf(s) < 0x8000_0000_0000_0000 then -ValueOf(s) else -0x8000_0000_0000_0000)
    ensures s == "" || (!IsDigit(s[0]) && (|s| == 1 || !IsDigit(s[1]))) ==> ParseInt(s) == 0
    ensures s != "" && !IsDigit(s[0]) && s[0] != '+' && s[0] != '-' ==> ParseInt(s) == 0
  {
    if s != "" && forall i :: 0 <= i < |s| ==> IsDigit(s[i]) {
      UintOfDigits(s);
      assert ("+" + s)[1..] == s && ("-" + s)[1..] == s;
      hide ParseUint, ValueOf;
    }
  }

  /** The one signed 64-bit number that differs from x by a multiple of 2^64. */
  lemma WrapMeans(x: int)
    ensures -0x8000_0000_0000_0000 <= Wrap64(x) < 0x8000_0000_0000_0000
    ensures exists k: int :: x == Wrap64(x) + 0x1_0000_0000_0000_0000 * k
  {
    var k := WrapIs(x);
    assert x == Wrap64(x) + 0x1_0000_0000_0000_0000 * k;
  }

  /** Printing and reading a number gives it back, cut off at the largest signed value. */
  lemma IntRoundTrip(n: nat)
    ensures ParseInt(Decimal(n)) == if n < 0x8000_0000_0000_0000 then n else 0x7FFF_FFFF_FFFF_FFFF
  {
    hide Decimal, ParseUint;
    ParseDecimal(n);
  }
}
