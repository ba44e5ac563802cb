/** Powers of two, and bit-wise And/Or on unsigned words with their arithmetic meaning for prefix masks. */
module Bitwise {

  function Pow2(n: nat): (r: nat)
    ensures r >= 1
  {
    if n == 0 then 1 else 2 * Pow2(n - 1)
  }

  lemma {:induction false} Pow2Add(m: nat, n: nat)
    ensures Pow2(m + n) == Pow2(m) * Pow2(n)
  {
    if m == 0 {
    } else {
      Pow2Add(m - 1, n);
      assert Pow2(m + n) == 2 * Pow2(m - 1 + n);
      assert Pow2(m) * Pow2(n) == 2 * (Pow2(m - 1) * Pow2(n));
    }
  }

  lemma {:induction false} Pow2Mono(m: nat, n: nat)
    requires m <= n
    ensures Pow2(m) <= Pow2(n)
  {
    if m == n {
    } else {
      Pow2Mono(m, n - 1);
    }
  }

  lemma Pow2Words()
    ensures Pow2(8) == 0x100 && Pow2(16) == 0x1_0000 && Pow2(24) == 0x100_0000 && Pow2(32) == 0x1_0000_0000
  {
    assert Pow2(0) == 1 && Pow2(1) == 2 && Pow2(2) == 4;
    Pow2Add(2, 2);
    Pow2Add(4, 4);
    Pow2Add(8, 8);
    Pow2Add(16, 8);
    Pow2Add(16, 16);
  }

  // ---- division ----

  lemma MulAtLeast(d: int, k: int)
    requires d > 0
    ensures k >= 1 ==> d * k >= d
    ensures k <= -1 ==> d * k <= -d
  {
    if k >= 1 {
      assert d * k == d * (k - 1) + d;
    } else if k <= -1 {
      assert d * k == d * (k + 1) - d;
    }
  }

  /** Quotient and remainder are determined by the division equation. */
  lemma ModUnique(x: int, d: int, q: int, r: int)
    requires d > 0 && 0 <= r < d && x == d * q + r
    ensures x / d == q && x % d == r
  {
    var q' := x / d;
    MulAtLeast(d, q - q');
    assert d * (q - q') == d * q - d * q';
  }

  lemma HalfMod(x: nat, w: nat)
    requires w > 0
    ensures x % (2 * w) == 2 * ((x / 2) % w) + x % 2
  {
    var q, r := (x / 2) / w, (x / 2) % w;
    assert (2 * w) * q == 2 * (w * q);
    ModUnique(x, 2 * w, q, 2 * r + x % 2);
  }

  /** Rounding down to a multiple of s first does not change rounding down to a multiple of s * k. */
  lemma RoundTwice(a: nat, s: nat, k: nat)
    requires s > 0 && k > 0
    ensures s * k > 0
    ensures var b := a - a % s; b - b % (s * k) == a - a % (s * k)
  {
    MulAtLeast(s, k);
    var sk := s * k;
    var q, r := a / sk, a % sk;
    assert sk * q == s * (k * q);
    assert s * (k * q) + s * (r / s) == s * (k * q + r / s);
    ModUnique(a, s, k * q + r / s, r % s);
    ModUnique(a - a % s, sk, q, r - r % s);
  }

  // ---- bit-wise operators ----

  datatype BitOp = And | Or {
    function Bit(x: int, y: int): (r: int)
      requires 0 <= x <= 1 && 0 <= y <= 1
      ensures 0 <= r <= 1
    {
      match this
      case And => if x == 1 && y == 1 then 1 else 0
      case Or => if x == 1 || y == 1 then 1 else 0
    }
  }

  /** The low n bits of x and y, combined bit by bit. */
  function Bits(op: BitOp, n: nat, x: nat, y: nat): (r: nat)
    ensures r < Pow2(n)
  {
    if n == 0 then 0 else 2 * Bits(op, n - 1, x / 2, y / 2) + op.Bit(x % 2, y % 2)
  }

  function Shl(x: nat, j: nat): nat {
    if j == 0 then x else 2 * Shl(x, j - 1)
  }

  lemma ShlByte(x: nat)
    ensures Shl(x, 8) == 0x100 * x
  {
    assert Shl(x, 1) == 2 * x;
    assert Shl(x, 3) == 8 * x;
    assert Shl(x, 5) == 32 * x;
    assert Shl(x, 7) == 128 * x;
  }

  /** Halving a number behind whose j low bits another one was put. */
  lemma ShlHalf(x: nat, j: nat, lo: nat)
    requires j > 0 && lo < Pow2(j)
    ensures lo / 2 < Pow2(j - 1)
    ensures (Shl(x, j) + lo) / 2 == Shl(x, j - 1) + lo / 2 && (Shl(x, j) + lo) % 2 == lo % 2
  {
  }

  /** Combining words part by part is combining them whole. */
  lemma {:induction false} BitsSplit(op: BitOp, n: nat, j: nat, x: nat, y: nat, lo: nat, m: nat)
    requires lo < Pow2(j) && m < Pow2(j)
    ensures Bits(op, n + j, Shl(x, j) + lo, Shl(y, j) + m) == Shl(Bits(op, n, x, y), j) + Bits(op, j, lo, m)
  {
    if j == 0 {
    } else {
      ShlHalf(x, j, lo);
      ShlHalf(y, j, m);
      BitsSplit(op, n, j - 1, x, y, lo / 2, m / 2);
    }
  }

  /** x with its w low bits cleared. */
  function DropLow(x: nat, w: nat): nat {
    if w == 0 then x else 2 * DropLow(x / 2, w - 1)
  }

  lemma {:induction false} DropLowMod(x: nat, w: nat)
    ensures DropLow(x, w) == x - x % Pow2(w)
  {
    if w == 0 {
    } else {
      DropLowMod(x / 2, w - 1);
      HalfMod(x, Pow2(w - 1));
    }
  }

  lemma {:induction false} AndOnes(n: nat, x: nat)
    requires x < Pow2(n)
    ensures Bits(And, n, x, Pow2(n) - 1) == x
  {
    if n == 0 {
    } else {
      AndOnes(n - 1, x / 2);
      assert (Pow2(n) - 1) / 2 == Pow2(n - 1) - 1;
    }
  }

  /** And-ing with a prefix mask clears the low bits. */
  lemma {:induction false} AndPrefix(n: nat, w: nat, x: nat)
    requires w <= n && x < Pow2(n)
    ensures Pow2(w) <= Pow2(n)
    ensures Bits(And, n, x, Pow2(n) - Pow2(w)) == DropLow(x, w)
    decreases w
  {
    Pow2Mono(w, n);
    if w == 0 {
      AndOnes(n, x);
    } else {
      AndPrefix(n - 1, w - 1, x / 2);
      assert (Pow2(n) - Pow2(w)) / 2 == Pow2(n - 1) - Pow2(w - 1);
    }
  }

  lemma {:induction false} OrZero(n: nat, x: nat)
    requires x < Pow2(n)
    ensures Bits(Or, n, x, 0) == x
  {
    if n == 0 {
    } else {
      OrZero(n - 1, x / 2);
    }
  }

  /** Or-ing a run of w low ones into a word whose w low bits are clear adds them. */
  lemma {:induction false} OrSuffix(n: nat, w: nat, x: nat)
    requires w <= n && x < Pow2(n) && x % Pow2(w) == 0
    ensures Bits(Or, n, x, Pow2(w) - 1) == x + Pow2(w) - 1
    decreases w
  {
    if w == 0 {
      OrZero(n, x);
    } else {
      HalfMod(x, Pow2(w - 1));
      OrSuffix(n - 1, w - 1, x / 2);
      assert (Pow2(w) - 1) / 2 == Pow2(w - 1) - 1;
    }
  }
}
