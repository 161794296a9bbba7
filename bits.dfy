/** Bit positions of integers, two's-complement style.

    The record words are modelled as numbers, and each tonc mask/shift as the
    matching division and remainder by a power of two. This module ties that
    arithmetic back to individual bits, so that "the low k bits agree" and
    "everything from bit k up agrees" can be read bit by bit. Division here
    rounds toward negative infinity (Dafny's `/` for a positive divisor), which
    is an arithmetic shift right, so the bits of a negative number are its
    two's-complement bits, as in C. */
module Bits {

  function Pow2(k: nat): (p: nat)
    ensures p >= 1
  {
    if k == 0 then 1 else 2 * Pow2(k - 1)
  }

  /** Bit i of n: `(n >> i) & 1`. */
  predicate Bit(n: int, i: nat)
    decreases i
  {
    if i == 0 then n % 2 == 1 else Bit(n / 2, i - 1)
  }

  lemma HalfSplit(a: int, p: nat)
    requires p >= 1
    ensures a % (2 * p) == 2 * ((a / 2) % p) + a % 2
    ensures a / (2 * p) == (a / 2) / p
  {
    var q, r := a / 2, a % 2;
    var s, t := q / p, q % p;
    assert a == 2 * q + r;
    assert q == p * s + t;
    assert a == (2 * p) * s + (2 * t + r);
    assert 0 <= 2 * t + r < 2 * p;
    DivModUnique(a, 2 * p, s, 2 * t + r);
  }

  lemma DivModUnique(a: int, d: int, q: int, r: int)
    requires d >= 1 && 0 <= r < d && a == d * q + r
    ensures a / d == q && a % d == r
  {
    var q', r' := a / d, a % d;
    assert d * (q - q') == r' - r;
    if q > q' {
      MulAtLeast(d, q - q');
    } else if q < q' {
      MulAtLeast(d, q' - q);
    }
  }

  /** Dividing by p and then by q is dividing by p * q. */
  lemma DivDiv(a: int, p: int, q: int)
    requires p >= 1 && q >= 1
    ensures a / (p * q) == a / p / q
  {
    var s, t := a / p, a % p;
    var u, v := s / q, s % q;
    assert a == p * s + t;
    assert s == q * u + v;
    calc {
      a;
      p * (q * u + v) + t;
      { assert p * (q * u + v) == p * (q * u) + p * v; }
      p * (q * u) + p * v + t;
      { assert p * (q * u) == (p * q) * u; }
      (p * q) * u + (p * v + t);
    }
    MulAtLeast(p, q - v);
    assert p * (q - v) == p * q - p * v;
    DivModUnique(a, p * q, u, p * v + t);
  }

  /** Subtracting h, reducing modulo m and adding h back gives v modulo m. */
  lemma AddBackMod(v: int, h: int, m: int)
    requires m >= 1
    ensures ((v - h) % m + h) % m == v % m
  {
    var q, s := (v - h) / m, (v - h) % m;
    var k, t := (s + h) / m, (s + h) % m;
    assert v == m * q + m * k + t;
    assert m * q + m * k == m * (q + k);
    DivModUnique(v, m, q + k, t);
  }

  lemma MulAtLeast(d: int, x: int)
    requires d >= 1 && x >= 1
    ensures d * x >= d
  {
    assert d * x == d * (x - 1) + d;
  }

  /** Numbers that agree modulo 2^k agree on bits 0 .. k-1. */
  lemma {:induction false} SameLowBits(a: int, b: int, k: nat, i: nat)
    requires a % Pow2(k) == b % Pow2(k)
    requires i < k
    ensures Bit(a, i) == Bit(b, i)
    decreases i
  {
    HalfSplit(a, Pow2(k - 1));
    HalfSplit(b, Pow2(k - 1));
    if i > 0 {
      SameLowBits(a / 2, b / 2, k - 1, i - 1);
    }
  }

  /** Numbers with the same quotient by 2^k agree on every bit from k up. */
  lemma {:induction false} SameHighBits(a: int, b: int, k: nat, i: nat)
    requires a / Pow2(k) == b / Pow2(k)
    requires k <= i
    ensures Bit(a, i) == Bit(b, i)
    decreases k
  {
    if k == 0 {
      assert a == b;
    } else {
      HalfSplit(a, Pow2(k - 1));
      HalfSplit(b, Pow2(k - 1));
      SameHighBits(a / 2, b / 2, k - 1, i - 1);
    }
  }

  /** Bit j of n / 2^k is bit k + j of n. */
  lemma {:induction false} BitOfQuotient(n: int, k: nat, j: nat)
    ensures Bit(n / Pow2(k), j) == Bit(n, k + j)
    decreases k
  {
    if k > 0 {
      HalfSplit(n, Pow2(k - 1));
      BitOfQuotient(n / 2, k - 1, j);
    }
  }

  /** A word written through a field of `width` bits starting at bit `lo`:
      if the parts below and above the field agree with `w` and the field
      holds `v` modulo 2^width, then every bit outside the field is `w`'s
      and bit lo + j is bit j of `v`. */
  lemma FieldBits(w: int, w': int, v: int, lo: nat, width: nat, i: nat)
    requires w' % Pow2(lo) == w % Pow2(lo)
    requires w' / Pow2(lo + width) == w / Pow2(lo + width)
    requires w' / Pow2(lo) % Pow2(width) == v % Pow2(width)
    ensures i < lo || lo + width <= i ==> Bit(w', i) == Bit(w, i)
    ensures lo <= i < lo + width ==> Bit(w', i) == Bit(v, i - lo)
  {
    if i < lo {
      SameLowBits(w', w, lo, i);
    } else if lo + width <= i {
      SameHighBits(w', w, lo + width, i);
    } else {
      BitOfQuotient(w', lo, i - lo);
      SameLowBits(w' / Pow2(lo), v, width, i - lo);
    }
  }
}
