/** Unsigned counters that wrap, as release builds compile them, and how far they can fall short. */
module Wrapping {
  const U32: int := 0x1_0000_0000

  type u32 = n: int | 0 <= n < U32

  /** A count kept in a `u32` by a release build: no overflow check, so it wraps. */
  function Wrap32(n: nat): (r: u32)
    ensures n < U32 ==> r == n
  {
    n % 0x1_0000_0000
  }

  /** `n + 1` on a `u32`. */
  function Bump(n: u32): u32 {
    if n == 0xFFFF_FFFF then 0 else n + 1
  }

  lemma {:induction false} BumpWraps(n: nat)
    ensures Bump(Wrap32(n)) == Wrap32(n + 1)
  {
  }

  /** Addition on a `u32`. */
  function AddU32(a: u32, b: u32): u32 {
    if a + b < U32 then a + b else a + b - U32
  }

  /** What `wraps` wraps of a `u32` counter lose. */
  function Lost(wraps: nat): nat {
    wraps * 0x1_0000_0000
  }

  /** `n` is what a counter shows, `total` what it should: they differ by whole wraps. */
  ghost predicate WrapsApart(n: nat, total: nat) {
    exists wraps: nat :: total == n + Lost(wraps)
  }

  lemma {:induction false} WrapsApartAdd(n: u32, total: nat, b: u32)
    requires WrapsApart(n, total)
    ensures WrapsApart(AddU32(n, b), total + b)
  {
    var wraps: nat :| total == n + Lost(wraps);
    assert total + b == AddU32(n, b) + Lost(if n + b < U32 then wraps else wraps + 1);
  }

  lemma {:induction false} WrapsApartStep(n: nat, later: nat, total: nat)
    requires WrapsApart(n, total) && (later == n + 1 || later + 0x1_0000_0000 == n + 1)
    ensures WrapsApart(later, total + 1)
  {
    var wraps: nat :| total == n + Lost(wraps);
    assert total + 1 == later + Lost(if later == n + 1 then wraps else wraps + 1);
  }

  lemma {:induction false} WrapsApartAtMost(n: nat, total: nat)
    requires WrapsApart(n, total)
    ensures n <= total
  {
  }

  lemma {:induction false} WrapsApartZero()
    ensures WrapsApart(0, 0)
  {
    assert 0 == 0 + Lost(0);
  }
}
