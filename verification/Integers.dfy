/**
 The machine integers of the program.  The release profile does not turn overflow checks on, so `*` on
 two u64 wraps around; `saturating_add` clamps.
 */
module Integers {

  const U64_LIMIT: nat := 0x1_0000_0000_0000_0000

  type u64 = x: int | 0 <= x < 0x1_0000_0000_0000_0000

  type i32 = x: int | -0x8000_0000 <= x < 0x8000_0000

  /** What is left of a number in 64 bits. */
  function Wrapped(n: nat): u64 {
    if n < U64_LIMIT then n else Wrapped(n - U64_LIMIT)
  }

  function WrappingMul(a: u64, b: u64): u64 {
    Wrapped(Product(a, b))
  }

  function Product(a: nat, b: nat): nat {
    a * b
  }

  lemma {:induction false} WrappedIsMod(n: nat)
    ensures Wrapped(n) == n % U64_LIMIT
  {
    if n >= U64_LIMIT {
      WrappedIsMod(n - U64_LIMIT);
    }
  }

  /** `saturating_add`: below the true sum only if no u64 is greater. */
  function SaturatingAdd(a: u64, b: u64): (sum: u64)
    ensures sum <= a + b
    ensures sum < a + b ==> sum + 1 == U64_LIMIT
  {
    if a + b < U64_LIMIT then a + b else U64_LIMIT - 1
  }

  /** A wrapping product is the true product exactly when the true product fits. */
  lemma WrappingMulExact(a: u64, b: u64)
    ensures WrappingMul(a, b) == a * b <==> a * b < U64_LIMIT
  {
    assert Wrapped(Product(a, b)) < U64_LIMIT;
  }

  lemma ModOfSmall(x: nat, m: nat)
    requires x < m
    ensures x % m == x
  {
  }

  /** Wrapping twice is wrapping the whole product once. */
  lemma WrappingMulTwice(a: u64, b: u64, c: u64)
    ensures WrappingMul(WrappingMul(a, b), c) == Wrapped(Product(Product(a, b), c))
  {
    WrappedFactor(Product(a, b), c);
  }

  /** A factor can be wrapped before the product is. */
  lemma {:induction false} WrappedFactor(x: nat, c: nat)
    ensures Wrapped(Product(Wrapped(x), c)) == Wrapped(Product(x, c))
  {
    if x >= U64_LIMIT {
      WrappedFactor(x - U64_LIMIT, c);
      Distribute(x - U64_LIMIT, c);
      MultiplesVanish(Product(x - U64_LIMIT, c), c);
    }
  }

  lemma Distribute(x: nat, c: nat)
    ensures Product(x + U64_LIMIT, c) == Product(x, c) + c * U64_LIMIT
  {
  }

  lemma {:induction false} MultiplesVanish(y: nat, k: nat)
    ensures Wrapped(y + k * U64_LIMIT) == Wrapped(y)
  {
    if k > 0 {
      MultiplesVanish(y, k - 1);
    }
  }
}
