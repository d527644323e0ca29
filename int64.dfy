/**
 * Two's-complement 64-bit integers (Rust's `i64`) on top of Dafny's unbounded `int`:
 * the wrapping arithmetic of `overflowing_add/sub/mul/div`, truncating division and
 * remainder, bitwise operators and shifts, each written out explicitly.
 */
module Int64 {

  const Two64: int := 0x1_0000_0000_0000_0000
  const Min: int := -0x8000_0000_0000_0000
  const Max: int := 0x7fff_ffff_ffff_ffff

  /** The values of Rust's `i64`. */
  type I64 = x: int | Min <= x <= Max

  /** 2 to the power n. */
  function Pow2(n: nat): (r: nat)
    ensures r >= 1
  {
    if n == 0 then 1 else 2 * Pow2(n - 1)
  }

  lemma {:induction false} Pow2Add(a: nat, b: nat)
    ensures Pow2(a + b) == Pow2(a) * Pow2(b)
  {
    if a > 0 {
      Pow2Add(a - 1, b);
    }
  }

  lemma Pow2Of64()
    ensures Pow2(64) == Two64
  {
    assert Pow2(2) == 4;
    Pow2Add(2, 2);
    assert Pow2(4) == 16;
    Pow2Add(4, 4);
    assert Pow2(8) == 256;
    Pow2Add(8, 8);
    assert Pow2(16) == 0x1_0000;
    Pow2Add(16, 16);
    assert Pow2(32) == 0x1_0000_0000;
    Pow2Add(32, 32);
  }

  /** Reduces x modulo 2^64 into the i64 range: the result of a wrapping operation. */
  function Wrap(x: int): (r: I64)
    ensures (r - x) % Two64 == 0
    ensures Min <= x <= Max ==> r == x
  {
    (x - Min) % Two64 + Min
  }

  /** Rust's `/` on integers: the quotient truncated toward zero. */
  function TruncDiv(a: int, b: int): int
    requires b != 0
  {
    var q := Abs(a) / Abs(b);
    if (a < 0) == (b < 0) then q else -q
  }

  /** Rust's `%` on integers: the remainder takes the sign of the dividend. */
  function TruncRem(a: int, b: int): int
    requires b != 0
  {
    a - b * TruncDiv(a, b)
  }

  function Abs(x: int): nat
  {
    if x < 0 then -x else x
  }

  lemma TruncRemBounds(a: int, b: int)
    requires b != 0
    ensures Abs(TruncRem(a, b)) < Abs(b)
    ensures TruncRem(a, b) != 0 ==> ((TruncRem(a, b) < 0) <==> (a < 0))
  {
    var q := Abs(a) / Abs(b);
    var m := Abs(a) % Abs(b);
    EuclidAbs(Abs(a), Abs(b));
    assert TruncDiv(a, b) == if (a < 0) == (b < 0) then q else -q;
    SignedRem(a, b, q, m);
  }

  lemma EuclidAbs(x: nat, y: nat)
    requires y > 0
    ensures x == y * (x / y) + x % y && 0 <= x % y < y
  {
  }

  /** The four sign cases of a - b * (±q) once |a| = |b| * q + m. */
  lemma SignedRem(a: int, b: int, q: int, m: int)
    requires b != 0 && Abs(a) == Abs(b) * q + m && 0 <= m < Abs(b)
    ensures a - b * (if (a < 0) == (b < 0) then q else -q) == (if a < 0 then -m else m)
  {
    if a < 0 && b < 0 {
      assert a == -(-b * q + m);
    } else if a < 0 {
      assert a == -(b * q + m);
    } else if b < 0 {
      assert a == -b * q + m;
    } else {
      assert a == b * q + m;
    }
  }

  /** The bit pattern of an i64 read as an unsigned 64-bit number (an `as u64` cast). */
  function ToUnsigned(x: I64): (u: nat)
    ensures u < Two64
    ensures (u - x) % Two64 == 0
  {
    if x < 0 then x + Two64 else x
  }

  /** An unsigned 64-bit pattern read back as an i64 (an `as i64` cast). */
  function FromUnsigned(u: nat): (x: I64)
    requires u < Two64
  {
    if u > Max then u - Two64 else u
  }

  lemma {:induction false} UnsignedRoundTrip(x: I64)
    ensures FromUnsigned(ToUnsigned(x)) == x
  {
  }

  /** Bitwise and of the low n bits of a and b. */
  function UAnd(a: nat, b: nat, n: nat): (r: nat)
    ensures r < Pow2(n)
  {
    if n == 0 then 0 else (a % 2) * (b % 2) + 2 * UAnd(a / 2, b / 2, n - 1)
  }

  /** Bitwise or of the low n bits of a and b. */
  function UOr(a: nat, b: nat, n: nat): (r: nat)
    ensures r < Pow2(n)
  {
    if n == 0 then 0 else (if a % 2 == 1 || b % 2 == 1 then 1 else 0) + 2 * UOr(a / 2, b / 2, n - 1)
  }

  /** `a & b` on i64. */
  function And(a: I64, b: I64): I64
  {
    Pow2Of64();
    FromUnsigned(UAnd(ToUnsigned(a), ToUnsigned(b), 64))
  }

  /** `a | b` on i64. */
  function Or(a: I64, b: I64): I64
  {
    Pow2Of64();
    FromUnsigned(UOr(ToUnsigned(a), ToUnsigned(b), 64))
  }

  /** `!a` on i64: every bit flipped, which in two's complement is -a - 1. */
  function Not(a: I64): I64
  {
    -(a as int) - 1
  }

  /** `a << s` on i64 for a shift amount 0 <= s < 64: bits shifted out are lost. */
  function Shl(a: I64, s: nat): I64
    requires s < 64
  {
    Wrap(a * Pow2(s))
  }

  /** `a >> s` on i64 for 0 <= s < 64: an arithmetic shift, i.e. floor division by 2^s. */
  function Shr(a: I64, s: nat): (r: I64)
    requires s < 64
  {
    ShrBound(a, s);
    a / Pow2(s)
  }

  lemma ShrBound(a: I64, s: nat)
    ensures Min <= a / Pow2(s) <= Max
  {
    var p := Pow2(s);
    if a >= 0 {
      DivLe(a, p);
    } else {
      DivGe(a, p);
    }
  }

  lemma DivLe(a: nat, p: nat)
    requires p >= 1
    ensures 0 <= a / p <= a
  {
    var q := a / p;
    assert a == p * q + a % p;
    MulNonNeg(p - 1, q);
  }

  lemma DivGe(a: int, p: nat)
    requires a < 0 && p >= 1
    ensures a <= a / p < 0
  {
    var q := a / p;
    var r := a % p;
    assert a == p * q + r && 0 <= r < p;
    if q >= 0 {
      MulNonNeg(p, q);
    }
    assert q < 0;
    MulNonPos(p - 1, q + 1);
    assert p * (q + 1) == p * q + p;
  }

  lemma MulNonNeg(x: nat, y: nat)
    ensures x * y >= 0
  {
  }

  lemma MulNonPos(x: nat, y: int)
    requires y <= 0
    ensures x * y <= 0
  {
  }
}
