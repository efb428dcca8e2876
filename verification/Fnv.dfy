/** FNV-1a over 64 bits, with the eight bytes of the hash field read as zero. */
module Fnv {
  import opened VtTypes

  const HASH_OFF := 14
  const OFFSET: u64 := 0xcbf29ce484222325
  const PRIME: u64 := 0x100000001b3

  /** Bitwise exclusive or. */
  function Xor(a: nat, b: nat): (x: nat)
    decreases a + b
  {
    if a == 0 && b == 0 then 0
    else 2 * Xor(a / 2, b / 2) + (if a % 2 == b % 2 then 0 else 1)
  }

  lemma {:induction false} XorBelow(a: nat, b: nat, n: nat)
    requires a < Pow2(n) && b < Pow2(n)
    ensures Xor(a, b) < Pow2(n)
    decreases n
  {
    if n > 0 && (a > 0 || b > 0) {
      XorBelow(a / 2, b / 2, n - 1);
    }
  }

  function Pow2(n: nat): nat {
    if n == 0 then 1 else 2 * Pow2(n - 1)
  }

  lemma Pow2Of64()
    ensures Pow2(64) == U64_MAX + 1
  {
    assert Pow2(4) == 0x10;
    Pow2Add(4, 4);
    assert Pow2(8) == 0x100;
    Pow2Add(8, 8);
    assert Pow2(16) == 0x1_0000;
    Pow2Add(16, 16);
    assert Pow2(32) == 0x1_0000_0000;
    Pow2Add(32, 32);
  }

  lemma {:induction false} Pow2Add(a: nat, b: nat)
    ensures Pow2(a + b) == Pow2(a) * Pow2(b)
  {
    if a > 0 {
      Pow2Add(a - 1, b);
      assert a + b - 1 == a - 1 + b;
    }
  }

  /** For a fixed left side, and for a fixed right side, `Xor` loses nothing. */
  lemma {:induction false} XorInjective(a: nat, b: nat, c: nat)
    ensures Xor(a, b) == Xor(a, c) ==> b == c
    decreases a + b + c
  {
    if (a > 0 || b > 0 || c > 0) && Xor(a, b) == Xor(a, c) {
      XorHalves(a, b);
      XorHalves(a, c);
      XorInjective(a / 2, b / 2, c / 2);
    }
  }

  lemma XorHalves(a: nat, b: nat)
    ensures Xor(a, b) / 2 == Xor(a / 2, b / 2)
    ensures Xor(a, b) % 2 == (if a % 2 == b % 2 then 0 else 1)
  {
  }

  lemma {:induction false} XorSymmetric(a: nat, b: nat)
    ensures Xor(a, b) == Xor(b, a)
    decreases a + b
  {
    if a > 0 || b > 0 {
      XorSymmetric(a / 2, b / 2);
    }
  }

  /** One byte: exclusive or, then a wrapping multiplication by the prime. */
  function Mix(h: u64, b: u8): u64 {
    Xor(h, b) * PRIME % (U64_MAX + 1)
  }

  const INVERSE: u64 := 0xce965057aff6957b
  const QUOTIENT: nat := 887285111055

  /** If `p` has the inverse `inv` modulo `m`, a multiple of `p` that is a
      multiple of `m` was one before. */
  lemma Cancel(d: int, p: int, inv: int, q: int, m: int, k: int)
    requires d * p == k * m && p * inv == 1 + q * m
    ensures d == (k * inv - d * q) * m
  {
    calc {
      d + d * q * m;
      { assert d * (q * m) == d * q * m; }
      d * (1 + q * m);
      d * (p * inv);
      { assert d * (p * inv) == d * p * inv; }
      k * m * inv;
      { assert k * m * inv == k * inv * m; }
      k * inv * m;
    }
    assert (k * inv - d * q) * m == k * inv * m - d * q * m;
  }

  lemma OnlyZero(d: int, j: int, m: int)
    requires m > 0 && d == j * m && -m < d < m
    ensures d == 0
  {
    assert j >= 1 ==> j * m >= m;
    assert j <= -1 ==> j * m <= -m;
  }

  lemma EqualRemainders(a: int, b: int, m: int) returns (k: int)
    requires m > 0 && a % m == b % m
    ensures a - b == k * m
  {
    k := a / m - b / m;
    assert a == a / m * m + a % m && b == b / m * m + b % m;
    assert (a / m - b / m) * m == a / m * m - b / m * m;
  }

  /** Multiplication by the prime can be undone modulo 2^64. */
  lemma MulInjective(x: nat, y: nat)
    requires x <= U64_MAX && y <= U64_MAX
    requires x * PRIME % (U64_MAX + 1) == y * PRIME % (U64_MAX + 1)
    ensures x == y
  {
    var m: int := U64_MAX + 1;
    var k := EqualRemainders(x * PRIME, y * PRIME, m);
    assert (x - y) * PRIME == x * PRIME - y * PRIME;
    assert PRIME * INVERSE == 1 + QUOTIENT * m;
    Cancel(x - y, PRIME, INVERSE, QUOTIENT, m, k);
    OnlyZero(x - y, k * INVERSE - (x - y) * QUOTIENT, m);
  }

  /** One step of the hash is injective in the state and in the byte. */
  lemma MixInjective(g: u64, h: u64, b: u8, c: u8)
    requires Mix(g, b) == Mix(h, c)
    ensures b == c ==> g == h
    ensures g == h ==> b == c
  {
    Pow2Of64();
    XorBelow(g, b, 64);
    XorBelow(h, c, 64);
    MulInjective(Xor(g, b), Xor(h, c));
    XorInjective(g, b, c);
    XorSymmetric(g, b);
    XorSymmetric(h, b);
    XorInjective(b, g, h);
  }

  predicate InHashField(i: int) {
    HASH_OFF <= i < HASH_OFF + 8
  }

  function Masked(blob: seq<u8>, i: nat): u8
    requires i < |blob|
  {
    if InHashField(i) then 0 else blob[i]
  }

  /** The hash of the first `n` bytes. */
  function Digest(blob: seq<u8>, n: nat): u64
    requires n <= |blob|
  {
    if n == 0 then OFFSET else Mix(Digest(blob, n - 1), Masked(blob, n - 1))
  }

  /** `fnv1a64_with_zero_hash`. */
  method Hash(blob: seq<u8>) returns (h: u64)
    ensures h == Digest(blob, |blob|)
  {
    h := OFFSET;
    for i := 0 to |blob|
      invariant h == Digest(blob, i)
    {
      var byte := if InHashField(i) then 0 else blob[i];
      h := Xor(h, byte) * PRIME % (U64_MAX + 1);
    }
  }

  /** The hash field does not enter its own digest. */
  lemma {:induction false} DigestMasks(a: seq<u8>, b: seq<u8>, n: nat)
    requires n <= |a| == |b|
    requires forall i :: 0 <= i < n && !InHashField(i) ==> a[i] == b[i]
    ensures Digest(a, n) == Digest(b, n)
  {
    if n > 0 {
      DigestMasks(a, b, n - 1);
    }
  }

  /** Changing exactly one byte outside the hash field changes the digest. */
  lemma {:induction false} DigestDiffers(a: seq<u8>, b: seq<u8>, k: nat, n: nat)
    requires k < n <= |a| == |b| && !InHashField(k)
    requires a[k] != b[k] && forall i :: 0 <= i < n && i != k ==> a[i] == b[i]
    ensures Digest(a, n) != Digest(b, n)
    decreases n
  {
    if n == k + 1 {
      DigestMasks(a, b, k);
      if Digest(a, n) == Digest(b, n) {
        MixInjective(Digest(a, k), Digest(b, k), a[k], b[k]);
      }
    } else {
      DigestDiffers(a, b, k, n - 1);
      if Digest(a, n) == Digest(b, n) {
        MixInjective(Digest(a, n - 1), Digest(b, n - 1), Masked(a, n - 1), Masked(b, n - 1));
      }
    }
  }
}
